/** What becomes of an upload, from what was delivered: which deliveries are accepted, what
    the stored file holds, and when every run stores the source.
 */
module UploadOutcome {
  import opened Bytes
  import opened Chunks
  import opened Connection
  import opened Options
  import opened Upload
  import opened Wire

  // ---------- which deliveries were taken ----------

  /** The bytes that the deliveries in a set bring, among the first n. */
  function TakenBytes(c: Config, taken: set<nat>, n: nat): nat
    requires c.Valid() && n <= |c.deliveries|
  {
    if n == 0 then 0 else TakenBytes(c, taken, n - 1) + if n - 1 in taken then c.ChunkLen(n - 1) else 0
  }

  /** The deliveries fit the file together, and none of the others would fit besides. */
  ghost predicate Maximal(c: Config, taken: set<nat>)
    requires c.Valid()
  {
    var n := |c.deliveries|;
    && (forall t :: t in taken ==> t < n) && TakenBytes(c, taken, n) <= |c.source|
    && forall t :: 0 <= t < n && t !in taken ==> TakenBytes(c, taken, n) + c.ChunkLen(t) > |c.source|
  }

  /** A delivery of the set carries the chunk in which byte k lies. */
  ghost predicate Covered(c: Config, taken: set<nat>, k: nat) {
    exists t :: 0 <= t < |c.deliveries| && t in taken && c.deliveries[t] == k / CHUNK_SIZE
  }

  /** The deliveries fill the file, and the chunks they leave out are zero. */
  ghost predicate Complete(c: Config, taken: set<nat>)
    requires c.Valid()
  {
    && TakenBytes(c, taken, |c.deliveries|) == |c.source|
    && forall k :: 0 <= k < |c.source| && !Covered(c, taken, k) ==> c.source[k] == 0
  }

  function DoneThreads(pcs: seq<Pc>): set<nat> {
    set t | 0 <= t < |pcs| && pcs[t].Done?
  }

  /** The upload is finished, recorded and reported once, and the file is the source. */
  ghost predicate Stored(c: Config, s: State) {
    s.status != DOING && s.rows == 1 && s.finishes == 1 && s.file == c.source
  }

  lemma {:induction false} ClaimedIsTaken(c: Config, pcs: seq<Pc>, taken: set<nat>, n: nat)
    requires c.Valid() && |pcs| == |c.deliveries| && n <= |pcs|
    requires forall t :: 0 <= t < |pcs| ==> (t in taken <==> pcs[t].Claimed())
    ensures ClaimedBytes(c, pcs, n) == TakenBytes(c, taken, n)
  {
    if n > 0 { ClaimedIsTaken(c, pcs, taken, n - 1); }
  }

  lemma QuietFile(c: Config, s: State)
    requires Inv(c, s) && Quiet(s)
    ensures forall k :: 0 <= k < |s.file| ==> s.file[k] == if Covered(c, DoneThreads(s.pcs), k) then c.source[k] else 0
  {
    forall k | 0 <= k < |s.file| ensures s.file[k] == if Covered(c, DoneThreads(s.pcs), k) then c.source[k] else 0 {
      if Covered(c, DoneThreads(s.pcs), k) {
        var t :| 0 <= t < |c.deliveries| && t in DoneThreads(s.pcs) && c.deliveries[t] == k / CHUNK_SIZE;
        Tiling(|c.source|, k, c.deliveries[t]);
        assert CopiedRight(c, s, t);
      }
    }
  }

  lemma QuietTaken(c: Config, s: State)
    requires Inv(c, s) && Quiet(s)
    ensures Maximal(c, DoneThreads(s.pcs)) && s.handled == TakenBytes(c, DoneThreads(s.pcs), |c.deliveries|)
  {
    var taken := DoneThreads(s.pcs);
    assert forall t :: 0 <= t < |s.pcs| ==> (t in taken <==> s.pcs[t].Claimed());
    ClaimedIsTaken(c, s.pcs, taken, |s.pcs|);
  }

  lemma QuietStatus(c: Config, s: State)
    requires Inv(c, s) && Quiet(s)
    ensures s.status != DOING <==> s.handled == |c.source|
    ensures s.rows == s.finishes == (if s.handled == |c.source| then 1 else 0)
  {
  }

  /** Whatever was delivered: when all threads are through, the deliveries that were accepted
      are a maximal set that fits the file; the file has the source bytes in exactly the chunks
      those carry and zeros elsewhere; and the upload is finished, recorded once and reported
      once exactly if they fill the file.
   */
  lemma QuietOutcome(c: Config, schedule: seq<Action>)
    requires c.Valid() && Quiet(Run(c, Init(c), schedule))
    ensures var s := Run(c, Init(c), schedule);
            var taken := DoneThreads(s.pcs);
            && Maximal(c, taken) && s.handled == TakenBytes(c, taken, |c.deliveries|)
            && (s.status != DOING <==> s.handled == |c.source|)
            && s.rows == s.finishes == (if s.handled == |c.source| then 1 else 0)
            && forall k :: 0 <= k < |s.file| ==> s.file[k] == if Covered(c, taken, k) then c.source[k] else 0
  {
    InitInv(c);
    RunInv(c, Init(c), schedule);
    QuietFile(c, Run(c, Init(c), schedule));
    QuietTaken(c, Run(c, Init(c), schedule));
    QuietStatus(c, Run(c, Init(c), schedule));
  }

  /** Hence such an upload has stored the source exactly if what was accepted is complete. */
  lemma ContentIff(c: Config, schedule: seq<Action>)
    requires c.Valid() && Quiet(Run(c, Init(c), schedule))
    ensures var s := Run(c, Init(c), schedule);
            Stored(c, s) <==> Complete(c, DoneThreads(s.pcs))
  {
    QuietOutcome(c, schedule);
  }

  // ---------- every maximal set can be the one that is accepted ----------

  lemma {:induction false} RunSplit(c: Config, s: State, a: seq<Action>, b: seq<Action>)
    requires Shaped(c, s)
    ensures Run(c, s, a + b) == Run(c, Run(c, s, a), b)
    decreases |a|
  {
    if a == [] {
      assert a + b == b;
    } else {
      assert (a + b)[1..] == a[1..] + b;
      RunSplit(c, Step(c, s, a[0]), a[1..], b);
    }
  }

  lemma RunTwo(c: Config, s: State, x: Action, y: Action)
    requires Shaped(c, s)
    ensures Run(c, s, [x, y]) == Step(c, Step(c, s, x), y)
  {
    var schedule := [x, y];
    assert schedule[1..] == [y] && [y][1..] == [];
    assert Run(c, Step(c, Step(c, s, x), y), []) == Step(c, Step(c, s, x), y);
  }

  /** Those of the first m deliveries that are in the set have claimed their bytes, those of
      the first r that are not have been refused, and nothing else has happened.
   */
  function Sorted(c: Config, taken: set<nat>, m: nat, r: nat): (s: State)
    requires c.Valid() && r <= m <= |c.deliveries|
    ensures Shaped(c, s)
  {
    State(DOING, TakenBytes(c, taken, m), seq(|c.source|, _ => 0),
          seq(|c.deliveries|, t => if t in taken then (if t < m then Copying(0) else Queued)
                                   else if t < r then Refused else Queued),
          [], None, 0, 0)
  }

  lemma {:induction false} TakenGrows(c: Config, taken: set<nat>, m: nat, n: nat)
    requires c.Valid() && m < n <= |c.deliveries|
    ensures TakenBytes(c, taken, m) + (if m in taken then c.ChunkLen(m) else 0) <= TakenBytes(c, taken, n)
  {
    if m + 1 < n { TakenGrows(c, taken, m, n - 1); }
  }

  /** The first two steps of a thread while the status is DOING: it claims, or is refused. */
  lemma ClaimOrRefuse(c: Config, s: State, t: nat)
    requires Shaped(c, s) && t < |s.pcs| && s.pcs[t].Queued? && s.status == DOING
    ensures Run(c, s, [Thread(t), Thread(t)])
         == if s.handled + c.ChunkLen(t) <= |c.source|
            then s.(handled := s.handled + c.ChunkLen(t), pcs := s.pcs[t := Copying(0)])
            else s.(pcs := s.pcs[t := Refused])
  {
    assert AsUint64(|c.source| - c.ChunkLen(t)) == |c.source| - c.ChunkLen(t);
    var one := s.(pcs := s.pcs[t := Claiming]);
    assert Step(c, s, Thread(t)) == one;
    assert one.pcs[t := Copying(0)] == s.pcs[t := Copying(0)] && one.pcs[t := Refused] == s.pcs[t := Refused];
    RunTwo(c, s, Thread(t), Thread(t));
  }

  lemma ClaimNext(c: Config, taken: set<nat>, m: nat)
    requires c.Valid() && Maximal(c, taken) && m < |c.deliveries| && m in taken
    ensures Run(c, Sorted(c, taken, m, 0), [Thread(m), Thread(m)]) == Sorted(c, taken, m + 1, 0)
  {
    TakenGrows(c, taken, m, |c.deliveries|);
    ClaimOrRefuse(c, Sorted(c, taken, m, 0), m);
    assert Sorted(c, taken, m + 1, 0).pcs == Sorted(c, taken, m, 0).pcs[m := Copying(0)];
  }

  lemma RefuseNext(c: Config, taken: set<nat>, r: nat)
    requires c.Valid() && Maximal(c, taken) && r < |c.deliveries| && r !in taken
    ensures var n := |c.deliveries|;
            Run(c, Sorted(c, taken, n, r), [Thread(r), Thread(r)]) == Sorted(c, taken, n, r + 1)
  {
    var n := |c.deliveries|;
    ClaimOrRefuse(c, Sorted(c, taken, n, r), r);
    assert Sorted(c, taken, n, r + 1).pcs == Sorted(c, taken, n, r).pcs[r := Refused];
  }

  lemma NoneClaimed(c: Config, taken: set<nat>)
    requires c.Valid()
    ensures Sorted(c, taken, 0, 0) == Init(c)
  {
    assert Sorted(c, taken, 0, 0).pcs == Init(c).pcs;
  }

  lemma NextNotTaken(c: Config, taken: set<nat>, m: nat)
    requires c.Valid() && m < |c.deliveries| && m !in taken
    ensures Sorted(c, taken, m + 1, 0) == Sorted(c, taken, m, 0)
  {
    assert Sorted(c, taken, m, 0).pcs == Sorted(c, taken, m + 1, 0).pcs;
  }

  lemma NextNotRefused(c: Config, taken: set<nat>, r: nat)
    requires c.Valid() && r < |c.deliveries| && r in taken
    ensures Sorted(c, taken, |c.deliveries|, r + 1) == Sorted(c, taken, |c.deliveries|, r)
  {
    var n := |c.deliveries|;
    assert Sorted(c, taken, n, r).pcs == Sorted(c, taken, n, r + 1).pcs;
  }

  /** One claim more, if there is one, after such a schedule. */
  lemma ClaimOneMore(c: Config, taken: set<nat>, m: nat, before: seq<Action>) returns (schedule: seq<Action>)
    requires c.Valid() && Maximal(c, taken) && m < |c.deliveries| && Run(c, Init(c), before) == Sorted(c, taken, m, 0)
    ensures Run(c, Init(c), schedule) == Sorted(c, taken, m + 1, 0)
  {
    if m in taken {
      ClaimNext(c, taken, m);
      RunSplit(c, Init(c), before, [Thread(m), Thread(m)]);
      schedule := before + [Thread(m), Thread(m)];
    } else {
      NextNotTaken(c, taken, m);
      schedule := before;
    }
  }

  lemma RefuseOneMore(c: Config, taken: set<nat>, r: nat, before: seq<Action>) returns (schedule: seq<Action>)
    requires c.Valid() && Maximal(c, taken) && r < |c.deliveries|
    requires Run(c, Init(c), before) == Sorted(c, taken, |c.deliveries|, r)
    ensures Run(c, Init(c), schedule) == Sorted(c, taken, |c.deliveries|, r + 1)
  {
    if r !in taken {
      RefuseNext(c, taken, r);
      RunSplit(c, Init(c), before, [Thread(r), Thread(r)]);
      schedule := before + [Thread(r), Thread(r)];
    } else {
      NextNotRefused(c, taken, r);
      schedule := before;
    }
  }

  lemma {:induction false} ClaimAll(c: Config, taken: set<nat>, m: nat) returns (schedule: seq<Action>)
    requires c.Valid() && Maximal(c, taken) && m <= |c.deliveries|
    ensures Run(c, Init(c), schedule) == Sorted(c, taken, m, 0)
  {
    if m == 0 {
      schedule := [];
      NoneClaimed(c, taken);
    } else {
      var before := ClaimAll(c, taken, m - 1);
      schedule := ClaimOneMore(c, taken, m - 1, before);
    }
  }

  lemma {:induction false} RefuseAll(c: Config, taken: set<nat>, r: nat) returns (schedule: seq<Action>)
    requires c.Valid() && Maximal(c, taken) && r <= |c.deliveries|
    ensures Run(c, Init(c), schedule) == Sorted(c, taken, |c.deliveries|, r)
  {
    if r == 0 {
      schedule := ClaimAll(c, taken, |c.deliveries|);
    } else {
      var before := RefuseAll(c, taken, r - 1);
      schedule := RefuseOneMore(c, taken, r - 1, before);
    }
  }

  /** Claims and refusals are final. */
  ghost predicate VerdictsKept(was: seq<Pc>, now: seq<Pc>) {
    |now| == |was| && forall t :: 0 <= t < |was| ==> (was[t].Claimed() ==> now[t].Claimed()) && (was[t].Refused? ==> now[t].Refused?)
  }

  lemma VerdictsKeptByStep(c: Config, s: State, a: Action)
    requires Shaped(c, s)
    ensures VerdictsKept(s.pcs, Step(c, s, a).pcs)
  {
  }

  lemma {:induction false} VerdictsStay(c: Config, s: State, schedule: seq<Action>)
    requires Shaped(c, s)
    ensures VerdictsKept(s.pcs, Run(c, s, schedule).pcs)
    decreases |schedule|
  {
    if schedule != [] {
      VerdictsKeptByStep(c, s, schedule[0]);
      VerdictsStay(c, Step(c, s, schedule[0]), schedule[1..]);
    }
  }

  /** Every maximal set is what some complete run accepts. */
  lemma CanBeTaken(c: Config, taken: set<nat>) returns (schedule: seq<Action>)
    requires c.Valid() && Maximal(c, taken)
    ensures Quiet(Run(c, Init(c), schedule)) && DoneThreads(Run(c, Init(c), schedule).pcs) == taken
  {
    var n := |c.deliveries|;
    var first := RefuseAll(c, taken, n);
    var rest := BecomesQuiet(c, Sorted(c, taken, n, n));
    RunSplit(c, Init(c), first, rest);
    VerdictsStay(c, Sorted(c, taken, n, n), rest);
    schedule := first + rest;
  }

  ghost predicate AlwaysStores(c: Config)
    requires c.Valid()
  {
    forall schedule :: Quiet(Run(c, Init(c), schedule)) ==> Stored(c, Run(c, Init(c), schedule))
  }

  /** For any deliveries: every complete run stores the source exactly if each maximal set of
      deliveries that fits the file fills it and leaves out only chunks that are zero.
   */
  lemma StoresSourceIff(c: Config)
    requires c.Valid()
    ensures AlwaysStores(c) <==> forall taken: set<nat> :: Maximal(c, taken) ==> Complete(c, taken)
  {
    if AlwaysStores(c) {
      forall taken: set<nat> | Maximal(c, taken) ensures Complete(c, taken) {
        var schedule := CanBeTaken(c, taken);
        ContentIff(c, schedule);
      }
    }
    if forall taken: set<nat> :: Maximal(c, taken) ==> Complete(c, taken) {
      forall schedule | Quiet(Run(c, Init(c), schedule)) ensures Stored(c, Run(c, Init(c), schedule)) {
        QuietOutcome(c, schedule);
        ContentIff(c, schedule);
      }
    }
  }

  /** A chunk sent again besides the others: the upload can finish without the other chunk,
      though it is delivered.
   */
  lemma RetransmissionExample(source: seq<byte>) returns (schedule: seq<Action>)
    requires |source| == 2 * CHUNK_SIZE && source[3000] != 0
    ensures var c := Config(source, [0, 0, 1]);
            var s := Run(c, Init(c), schedule);
            Quiet(s) && s.status != DOING && s.rows == 1 && s.file != source
  {
    var c := Config(source, [0, 0, 1]);
    TakenOfThree(c, {0, 1}, 3);
    schedule := CanBeTaken(c, {0, 1});
    QuietOutcome(c, schedule);
    assert !Covered(c, {0, 1}, 3000);
  }

  lemma {:induction false} TakenOfThree(c: Config, taken: set<nat>, n: nat)
    requires c.Valid() && 3 <= n <= |c.deliveries| && forall t :: t in taken ==> t < 3
    ensures TakenBytes(c, taken, n) == (if 0 in taken then c.ChunkLen(0) else 0) + (if 1 in taken then c.ChunkLen(1) else 0)
                                       + (if 2 in taken then c.ChunkLen(2) else 0)
  {
    if n > 3 {
      TakenOfThree(c, taken, n - 1);
    } else {
      assert TakenBytes(c, taken, 2) == TakenBytes(c, taken, 1) + if 1 in taken then c.ChunkLen(1) else 0;
    }
  }

  /** And it can never finish: here the two short last chunks leave no room for a full one. */
  lemma NeverFinishesExample(source: seq<byte>) returns (schedule: seq<Action>)
    requires |source| == 2 * CHUNK_SIZE + 100
    ensures var c := Config(source, [0, 2, 2, 1, 0, 1]);
            var s := Run(c, Init(c), schedule);
            Quiet(s) && s.status == DOING && s.rows == 0
  {
    var c, taken := Config(source, [0, 2, 2, 1, 0, 1]), {0, 1, 2};
    TakenOfThree(c, taken, 6);
    schedule := CanBeTaken(c, taken);
    QuietOutcome(c, schedule);
  }

  /** As many bytes delivered as the file has: all are accepted, the upload is finished,
      recorded once and reported once, and the file consists of the chunks that were delivered,
      with zeros where a chunk never came.
   */
  lemma ExactDeliveries(c: Config, schedule: seq<Action>)
    requires c.Valid() && Quiet(Run(c, Init(c), schedule))
    requires DeliveredBytes(c, |c.deliveries|) == |c.source|
    ensures var s := Run(c, Init(c), schedule);
            && AllAccepted(s) && (s.status == FIN || s.status == CLOSE)
            && s.rows == 1 && s.finishes == 1
            && forall k :: 0 <= k < |s.file| ==>
                 s.file[k] == if k / CHUNK_SIZE in c.deliveries then c.source[k] else 0
  {
    var s := Run(c, Init(c), schedule);
    InitInv(c);
    RunInv(c, Init(c), schedule);
    AllAcceptedIff(c, schedule);
    ClaimedBound(c, s.pcs, |s.pcs|);
    QuietOutcome(c, schedule);
    forall k | 0 <= k < |s.file| ensures Covered(c, DoneThreads(s.pcs), k) <==> k / CHUNK_SIZE in c.deliveries {
      if k / CHUNK_SIZE in c.deliveries {
        var t :| 0 <= t < |c.deliveries| && c.deliveries[t] == k / CHUNK_SIZE;
        assert t in DoneThreads(s.pcs);
      }
    }
  }

  /** Then the stored file is the source exactly when all chunks that were never delivered are
      zero anyway: a chunk delivered twice instead of another one is not noticed.
   */
  lemma ExactContentIff(c: Config, schedule: seq<Action>)
    requires c.Valid() && Quiet(Run(c, Init(c), schedule))
    requires DeliveredBytes(c, |c.deliveries|) == |c.source|
    ensures Run(c, Init(c), schedule).file == c.source
       <==> forall k :: 0 <= k < |c.source| && k / CHUNK_SIZE !in c.deliveries ==> c.source[k] == 0
  {
    ExactDeliveries(c, schedule);
  }

  // ---------- each chunk delivered once, in any order ----------

  function Indices(n: nat): (s: seq<nat>)
    ensures |s| == n && forall i :: 0 <= i < n ==> s[i] == i
  {
    seq(n, i => i)
  }

  ghost predicate EachOnce(c: Config) {
    c.Valid() && multiset(c.deliveries) == multiset(Indices(Count(|c.source|)))
  }

  ghost predicate ChunkIds(size: nat, ids: seq<nat>) {
    forall k :: 0 <= k < |ids| ==> ids[k] < Count(size)
  }

  function LenSum(size: nat, ids: seq<nat>): nat
    requires ChunkIds(size, ids)
  {
    if ids == [] then 0 else LenSum(size, ids[..|ids| - 1]) + Len(size, ids[|ids| - 1])
  }

  function Without<T>(ids: seq<T>, k: nat): (r: seq<T>)
    requires k < |ids|
  {
    ids[..k] + ids[k + 1..]
  }

  lemma WithoutMultiset<T>(ids: seq<T>, k: nat)
    requires k < |ids|
    ensures multiset(Without(ids, k)) == multiset(ids) - multiset{ids[k]}
  {
    assert ids == ids[..k] + [ids[k]] + ids[k + 1..];
  }

  lemma WithoutBoth<T>(a: seq<T>, j: nat, b: seq<T>, k: nat)
    requires multiset(a) == multiset(b) && j < |a| && k < |b| && a[j] == b[k]
    ensures multiset(Without(a, j)) == multiset(Without(b, k))
  {
    WithoutMultiset(a, j);
    WithoutMultiset(b, k);
  }

  lemma {:induction false} LenSumWithout(size: nat, ids: seq<nat>, k: nat)
    requires k < |ids| && ChunkIds(size, ids)
    ensures ChunkIds(size, Without(ids, k))
    ensures LenSum(size, ids) == LenSum(size, Without(ids, k)) + Len(size, ids[k])
    decreases |ids|
  {
    var last := |ids| - 1;
    var rest := Without(ids, k);
    if k == last {
      assert rest == ids[..last];
    } else {
      LenSumWithout(size, ids[..last], k);
      assert Without(ids[..last], k) == rest[..|rest| - 1];
    }
  }

  /** The sum of chunk lengths does not depend on the order. */
  lemma {:induction false} LenSumPermutation(size: nat, a: seq<nat>, b: seq<nat>)
    requires multiset(a) == multiset(b)
    requires ChunkIds(size, a) && ChunkIds(size, b)
    ensures LenSum(size, a) == LenSum(size, b)
    decreases |a|
  {
    if a == [] {
      assert |multiset(b)| == 0;
    } else {
      assert a[0] in multiset(b);
      var k :| 0 <= k < |b| && b[k] == a[0];
      LenSumWithout(size, a, 0);
      LenSumWithout(size, b, k);
      WithoutBoth(a, 0, b, k);
      LenSumPermutation(size, Without(a, 0), Without(b, k));
    }
  }

  lemma {:induction false} LenSumOfAll(size: nat, n: nat)
    requires n <= Count(size)
    ensures LenSum(size, Indices(n)) == Total(size, n)
  {
    if n > 0 {
      LenSumOfAll(size, n - 1);
      assert Indices(n)[..n - 1] == Indices(n - 1);
    }
  }

  lemma {:induction false} DeliveredIsLenSum(c: Config, n: nat)
    requires c.Valid() && n <= |c.deliveries|
    ensures DeliveredBytes(c, n) == LenSum(|c.source|, c.deliveries[..n])
  {
    if n > 0 {
      DeliveredIsLenSum(c, n - 1);
      assert c.deliveries[..n][..n - 1] == c.deliveries[..n - 1];
    }
  }

  /** Each chunk once, in whatever order and interleaving: once all threads are through, the
      upload is finished, recorded and reported once, the stored file is the source, and each
      chunk has been acknowledged exactly once.
   */
  lemma UploadCorrect(c: Config, schedule: seq<Action>)
    requires EachOnce(c) && Quiet(Run(c, Init(c), schedule))
    ensures var s := Run(c, Init(c), schedule);
            && AllAccepted(s) && (s.status == FIN || s.status == CLOSE)
            && s.rows == 1 && s.finishes == 1
            && s.file == c.source
  {
    var size, all := |c.source|, Indices(Count(|c.source|));
    LenSumPermutation(size, c.deliveries, all);
    LenSumOfAll(size, Count(size));
    LengthsAddUp(size, Count(size));
    DeliveredIsLenSum(c, |c.deliveries|);
    assert c.deliveries[..|c.deliveries|] == c.deliveries;
    forall k | 0 <= k < size ensures k / CHUNK_SIZE in c.deliveries {
      Tiling(size, k, 0);
      assert all[k / CHUNK_SIZE] in multiset(c.deliveries);
    }
    ExactDeliveries(c, schedule);
    ExactContentIff(c, schedule);
  }

  // ---------- from the client's PDUs to the deliveries ----------

  function ChunkId(p: Pdu): nat {
    if p.TranData? then p.chunkIndex else 0
  }

  /** The chunk ids of data PDUs. */
  function ChunkIdsOf(pdus: seq<Pdu>): (ids: seq<nat>)
    ensures |ids| == |pdus| && forall i :: 0 <= i < |pdus| ==> ids[i] == ChunkId(pdus[i])
  {
    seq(|pdus|, i requires 0 <= i < |pdus| => ChunkId(pdus[i]))
  }

  lemma OneChunkLess(pdus: seq<Pdu>, k: nat)
    requires k < |pdus|
    ensures multiset(ChunkIdsOf(Without(pdus, k))) + multiset{ChunkId(pdus[k])} == multiset(ChunkIdsOf(pdus))
  {
    WithoutMultiset(ChunkIdsOf(pdus), k);
    assert ChunkIdsOf(Without(pdus, k)) == Without(ChunkIdsOf(pdus), k);
  }

  lemma {:induction false} ChunkIdsPermutation(a: seq<Pdu>, b: seq<Pdu>)
    requires multiset(a) == multiset(b)
    ensures multiset(ChunkIdsOf(a)) == multiset(ChunkIdsOf(b))
    decreases |a|
  {
    if a == [] {
      assert |multiset(b)| == 0;
    } else {
      assert a[0] in multiset(b);
      var k :| 0 <= k < |b| && b[k] == a[0];
      WithoutBoth(a, 0, b, k);
      ChunkIdsPermutation(Without(a, 0), Without(b, k));
      OneChunkLess(a, 0);
      OneChunkLess(b, k);
    }
  }

  /** What the client's loop sends when it is not stopped, handled by the pool in any order,
      is each chunk once, and every handled PDU carries exactly the place, length and bytes of
      its chunk: the hypothesis of UploadCorrect and AcknowledgedOnce.
   */
  lemma HandledEachOnce(source: seq<byte>, sent: seq<Pdu>, handled: seq<Pdu>)
    requires 0 < |source| <= MAX_FILE_SIZE && |sent| == Count(|source|)
    requires forall k :: 0 <= k < |sent| ==> sent[k] == ChunkPdu(PUTS_DATA, source, k)
    requires multiset(handled) == multiset(sent)
    ensures EachOnce(Config(source, ChunkIdsOf(handled)))
    ensures forall t :: 0 <= t < |handled| ==>
              ChunkIdsOf(handled)[t] < Count(|source|) && handled[t] == ChunkPdu(PUTS_DATA, source, ChunkIdsOf(handled)[t])
    ensures forall t :: 0 <= t < |handled| ==> CarriesChunk(handled[t], PUTS_DATA, source, ChunkIdsOf(handled)[t])
  {
    forall t | 0 <= t < |handled|
      ensures ChunkIdsOf(handled)[t] < Count(|source|) && handled[t] == ChunkPdu(PUTS_DATA, source, ChunkIdsOf(handled)[t])
    {
      assert handled[t] in multiset(sent);
      var k :| 0 <= k < |sent| && sent[k] == handled[t];
    }
    forall t | 0 <= t < |handled| ensures CarriesChunk(handled[t], PUTS_DATA, source, ChunkIdsOf(handled)[t]) {
      ChunkPduCarries(PUTS_DATA, source, ChunkIdsOf(handled)[t]);
    }
    ChunkIdsPermutation(handled, sent);
    assert ChunkIdsOf(sent) == Indices(Count(|source|));
  }

  // ---------- acknowledgements ----------

  lemma {:induction false} IndexOccursOnce(n: nat, x: nat)
    ensures multiset(Indices(n))[x] == if x < n then 1 else 0
  {
    if n > 0 {
      IndexOccursOnce(n - 1, x);
      assert Indices(n) == Indices(n - 1) + [n - 1];
    }
  }

  lemma DeliveriesDistinct(c: Config, t: nat, u: nat)
    requires EachOnce(c) && t < u < |c.deliveries|
    ensures c.deliveries[t] != c.deliveries[u]
  {
    var d := c.deliveries;
    IndexOccursOnce(Count(|c.source|), d[u]);
    assert d == d[..u] + [d[u]] + d[u + 1..];
    assert multiset(d[..u])[d[u]] == 0;
    assert d[..u][t] in d[..u];
  }

  /** The chunk ids the server acknowledged, in order. */
  function AckedChunks(c: Config, s: State): (ids: seq<nat>)
    requires Shaped(c, s) && forall i :: 0 <= i < |s.acks| ==> s.acks[i] < |s.pcs|
    ensures |ids| == |s.acks| && forall i :: 0 <= i < |ids| ==> ids[i] == c.deliveries[s.acks[i]]
  {
    seq(|s.acks|, i requires 0 <= i < |s.acks| => c.deliveries[s.acks[i]])
  }

  /** With each chunk delivered once the server acknowledges no chunk twice, at any moment,
      and every chunk in the end: what SettleAll on the client's side asks for.
   */
  lemma AcknowledgedOnce(c: Config, schedule: seq<Action>)
    requires EachOnce(c)
    ensures var s := Run(c, Init(c), schedule);
            && Inv(c, s)
            && (forall i, j :: 0 <= i < j < |s.acks| ==> AckedChunks(c, s)[i] != AckedChunks(c, s)[j])
            && (Quiet(s) ==> forall i :: 0 <= i < Count(|c.source|) ==> i in AckedChunks(c, s))
  {
    var s := Run(c, Init(c), schedule);
    InitInv(c);
    RunInv(c, Init(c), schedule);
    var ids := AckedChunks(c, s);
    forall i, j | 0 <= i < j < |s.acks| ensures ids[i] != ids[j] {
      if s.acks[i] < s.acks[j] {
        DeliveriesDistinct(c, s.acks[i], s.acks[j]);
      } else {
        DeliveriesDistinct(c, s.acks[j], s.acks[i]);
      }
    }
    if Quiet(s) {
      UploadCorrect(c, schedule);
      forall i | 0 <= i < Count(|c.source|) ensures i in ids {
        assert Indices(Count(|c.source|))[i] in multiset(c.deliveries);
        var t :| 0 <= t < |c.deliveries| && c.deliveries[t] == i;
        assert s.pcs[t].Acknowledged();
        var k :| 0 <= k < |s.acks| && s.acks[k] == t;
        assert ids[k] == i;
      }
    }
  }
}
