/** Receiving the chunks of one upload in pool threads that interleave freely: every thread
    claims its bytes, copies them byte by byte into the mapped file, acknowledges, and the
    one that sees all bytes claimed and wins the compare-and-swap records the file.
 */
module Upload {
  import opened Bytes
  import opened Chunks
  import opened Connection
  import opened Options
  import opened Wire

  /** The file being uploaded and the chunk each delivered PDU carries. Nothing is assumed
      of the deliveries but that each is a chunk of the file: some may come twice or never.
   */
  datatype Config = Config(source: seq<byte>, deliveries: seq<nat>) {
    ghost predicate Valid() {
      0 < |source| <= MAX_FILE_SIZE && forall t :: 0 <= t < |deliveries| ==> deliveries[t] < Count(|source|)
    }

    function ChunkLen(t: nat): (n: nat)
      requires Valid() && t < |deliveries|
      ensures 1 <= n && ChunkOffset(t) + n <= |source|
    {
      Len(|source|, deliveries[t])
    }

    function ChunkOffset(t: nat): nat
      requires Valid() && t < |deliveries|
    {
      Offset(deliveries[t])
    }
  }

  /** Where the thread handling a delivery stands. */
  datatype Pc =
    | Queued            // before looking at the status
    | Claiming          // before claiming its bytes
    | Copying(n: nat)   // n bytes are copied
    | Checking          // acknowledged; before comparing the handled size with the total
    | Swapping          // before the compare-and-swap
    | Inserting         // won; before inserting the database row
    | Notifying         // before sending PUTS_FINISH
    | Done
    | Refused           // the claim failed
    | Skipped           // the status was not DOING
  {
    predicate Over() {
      Done? || Refused? || Skipped?
    }

    predicate Claimed() {
      !Queued? && !Claiming? && !Refused? && !Skipped?
    }

    predicate Acknowledged() {
      Claimed() && !Copying?
    }

    predicate Recording() {
      Inserting? || Notifying?
    }
  }

  datatype State = State(
    status: int, handled: nat, file: seq<byte>, pcs: seq<Pc>,
    acks: seq<nat>,        // the threads that have acknowledged, in order
    winner: Option<nat>,   // the thread whose compare-and-swap succeeded
    rows: nat,             // how often the file was inserted into the database
    finishes: nat)         // how often PUTS_FINISH was sent

  datatype Action = Thread(t: nat) | ClientFinish

  function Init(c: Config): State {
    State(DOING, 0, seq(|c.source|, _ => 0), seq(|c.deliveries|, _ => Queued), [], None, 0, 0)
  }

  ghost predicate Shaped(c: Config, s: State) {
    && c.Valid() && |s.file| == |c.source| && |s.pcs| == |c.deliveries|
    && forall t :: 0 <= t < |s.pcs| && s.pcs[t].Copying? ==> s.pcs[t].n <= c.ChunkLen(t)
  }

  /** One atomic step: of a thread, or the client's confirmation being handled. */
  function Step(c: Config, s: State, a: Action): (s': State)
    requires Shaped(c, s)
    ensures Shaped(c, s')
  {
    match a
    case ClientFinish => if s.status == FIN then s.(status := CLOSE) else s
    case Thread(t) =>
      if t >= |s.pcs| then s
      else
        var len, off, total := c.ChunkLen(t), c.ChunkOffset(t), |c.source|;
        match s.pcs[t]
        case Queued => s.(pcs := s.pcs[t := if s.status == DOING then Claiming else Skipped])
        case Claiming =>
          if s.handled <= AsUint64(total - len)
          then s.(handled := s.handled + len, pcs := s.pcs[t := Copying(0)])
          else s.(pcs := s.pcs[t := Refused])
        case Copying(n) =>
          if n < len then s.(file := s.file[off + n := c.source[off + n]], pcs := s.pcs[t := Copying(n + 1)])
          else s.(acks := s.acks + [t], pcs := s.pcs[t := Checking])
        case Checking => s.(pcs := s.pcs[t := if s.handled == total then Swapping else Done])
        case Swapping =>
          if s.status == DOING then s.(status := FIN, winner := Some(t), pcs := s.pcs[t := Inserting])
          else s.(pcs := s.pcs[t := Done])
        case Inserting => s.(rows := s.rows + 1, pcs := s.pcs[t := Notifying])
        case Notifying => s.(finishes := s.finishes + 1, pcs := s.pcs[t := Done])
        case _ => s
  }

  function Run(c: Config, s: State, schedule: seq<Action>): (s': State)
    requires Shaped(c, s)
    ensures Shaped(c, s')
    decreases |schedule|
  {
    if schedule == [] then s else Run(c, Step(c, s, schedule[0]), schedule[1..])
  }

  // ---------- the steps as the threads perform them ----------

  class UploadTask {
    const con: UpDownCon
    const fileMap: array<byte>
    ghost const c: Config
    const source: seq<byte>
    const deliveries: seq<nat>
    var pcs: seq<Pc>
    var acks: seq<nat>
    var rows: nat
    var finishes: nat
    ghost var winner: Option<nat>

    ghost function Abs(): State
      reads this, con, fileMap
    {
      State(con.status, con.handledSize, fileMap[..], pcs, acks, winner, rows, finishes)
    }

    ghost predicate Valid()
      reads this, con, fileMap
    {
      c == Config(source, deliveries) && Shaped(c, Abs())
    }

    constructor (source: seq<byte>, deliveries: seq<nat>)
      requires Config(source, deliveries).Valid()
      ensures Valid() && Abs() == Init(Config(source, deliveries)) && fresh(con) && fresh(fileMap)
      ensures c == Config(source, deliveries)
    {
      con := new UpDownCon();
      fileMap := new byte[|source|](_ => 0);
      c := Config(source, deliveries);
      this.source, this.deliveries := source, deliveries;
      pcs, acks, rows, finishes, winner := seq(|deliveries|, _ => Queued), [], 0, 0, None;
    }

    /** One byte of the copy into the mapped file. */
    method CopyByte(k: nat)
      requires k < |source| == fileMap.Length
      modifies fileMap
      ensures fileMap[..] == old(fileMap[..])[k := source[k]]
    {
      fileMap[k] := source[k];
    }

    /** A byte of the chunk, or after the last one the acknowledgement. */
    method CopyNext(t: nat, n: nat, offset: nat, targetBytes: nat)
      requires Valid() && t < |pcs| && pcs[t] == Copying(n)
      requires offset == c.ChunkOffset(t) && targetBytes == c.ChunkLen(t)
      modifies this, fileMap
      ensures Valid() && Abs() == Step(c, old(Abs()), Thread(t))
    {
      if n < targetBytes {
        CopyByte(offset + n);
        pcs := pcs[t := Copying(n + 1)];
      } else {
        acks := acks + [t];
        pcs := pcs[t := Checking];
      }
    }

    /** Asks for the chunk's bytes to be counted. */
    method Claim(t: nat, targetBytes: nat)
      requires Valid() && t < |pcs| && pcs[t] == Claiming && targetBytes == c.ChunkLen(t)
      modifies this, con
      ensures Valid() && Abs() == Step(c, old(Abs()), Thread(t))
    {
      var added := con.LessEqualAddTaskHandleSize(AsUint64(|source| - targetBytes), targetBytes);
      pcs := pcs[t := if added then Copying(0) else Refused];
    }

    /** Tries to be the one thread that finishes the upload. */
    method Swap(t: nat)
      requires Valid() && t < |pcs| && pcs[t] == Swapping
      modifies this, con
      ensures Valid() && Abs() == Step(c, old(Abs()), Thread(t))
    {
      var swapped := con.CmpExchange(DOING, FIN);
      if swapped { winner := Some(t); }
      pcs := pcs[t := if swapped then Inserting else Done];
    }

    /** The next atomic action of the thread handling delivery t. */
    method Advance(t: nat)
      requires Valid() && t < |pcs|
      modifies this, con, fileMap
      ensures Valid() && Abs() == Step(c, old(Abs()), Thread(t))
    {
      var total, offset, targetBytes := |source|, Offset(deliveries[t]), Len(|source|, deliveries[t]);
      match pcs[t] {
        case Queued =>
          pcs := pcs[t := if con.status == DOING then Claiming else Skipped];
        case Claiming => Claim(t, targetBytes);
        case Copying(n) => CopyNext(t, n, offset, targetBytes);
        case Checking =>
          pcs := pcs[t := if con.handledSize == total then Swapping else Done];
        case Swapping => Swap(t);
        case Inserting =>
          rows := rows + 1;
          pcs := pcs[t := Notifying];
        case Notifying =>
          finishes := finishes + 1;
          pcs := pcs[t := Done];
        case _ =>
      }
    }

    /** The client's confirmation closes a finished upload. */
    method PutsFinish()
      requires Valid()
      modifies con
      ensures Valid() && Abs() == Step(c, old(Abs()), ClientFinish)
      ensures con.status == (if old(con.status) == FIN then CLOSE else old(con.status)) && con.handledSize == old(con.handledSize)
    {
      if con.status == FIN {
        con.status := CLOSE;
      }
    }

    /** Any interleaving of the threads and the confirmation. */
    method Execute(schedule: seq<Action>)
      requires Valid()
      modifies this, con, fileMap
      ensures Valid() && Abs() == Run(c, old(Abs()), schedule)
    {
      var i := 0;
      while i < |schedule|
        invariant 0 <= i <= |schedule| && Valid()
        invariant Run(c, Abs(), schedule[i..]) == Run(c, old(Abs()), schedule)
      {
        assert schedule[i..][1..] == schedule[i + 1..];
        match schedule[i] {
          case ClientFinish => PutsFinish();
          case Thread(t) =>
            if t < |pcs| {
              Advance(t);
            }
        }
        i := i + 1;
      }
    }
  }

  // ---------- bytes claimed and bytes delivered ----------

  /** The bytes the first n deliveries have claimed. */
  function ClaimedBytes(c: Config, pcs: seq<Pc>, n: nat): nat
    requires c.Valid() && |pcs| == |c.deliveries| && n <= |pcs|
  {
    if n == 0 then 0
    else ClaimedBytes(c, pcs, n - 1) + if pcs[n - 1].Claimed() then c.ChunkLen(n - 1) else 0
  }

  function DeliveredBytes(c: Config, n: nat): nat
    requires c.Valid() && n <= |c.deliveries|
  {
    if n == 0 then 0 else DeliveredBytes(c, n - 1) + c.ChunkLen(n - 1)
  }

  lemma {:induction false} ClaimedUpdate(c: Config, pcs: seq<Pc>, t: nat, pc: Pc, n: nat)
    requires c.Valid() && |pcs| == |c.deliveries| && t < |pcs| && n <= |pcs|
    ensures ClaimedBytes(c, pcs[t := pc], n) == ClaimedBytes(c, pcs, n)
              + (if t < n && pc.Claimed() && !pcs[t].Claimed() then c.ChunkLen(t) else 0)
              - (if t < n && !pc.Claimed() && pcs[t].Claimed() then c.ChunkLen(t) else 0)
  {
    if n > 0 { ClaimedUpdate(c, pcs, t, pc, n - 1); }
  }

  /** What an unclaimed delivery brings is not among the claimed bytes. */
  lemma {:induction false} ClaimedBound(c: Config, pcs: seq<Pc>, n: nat)
    requires c.Valid() && |pcs| == |c.deliveries| && n <= |pcs|
    ensures ClaimedBytes(c, pcs, n) <= DeliveredBytes(c, n)
    ensures forall t :: 0 <= t < n && !pcs[t].Claimed() ==> ClaimedBytes(c, pcs, n) + c.ChunkLen(t) <= DeliveredBytes(c, n)
    ensures (forall t :: 0 <= t < n ==> pcs[t].Claimed()) ==> ClaimedBytes(c, pcs, n) == DeliveredBytes(c, n)
  {
    if n > 0 { ClaimedBound(c, pcs, n - 1); }
  }

  // ---------- the invariant ----------

  /** How many bytes of its chunk the thread has copied. */
  function Copied(c: Config, s: State, t: nat): nat
    requires Shaped(c, s) && t < |s.pcs|
  {
    if s.pcs[t].Copying? then s.pcs[t].n else if s.pcs[t].Claimed() then c.ChunkLen(t) else 0
  }

  ghost predicate HandledInv(c: Config, s: State)
    requires Shaped(c, s)
  {
    s.handled == ClaimedBytes(c, s.pcs, |s.pcs|) <= |c.source|
  }

  /** The status leaves DOING with the one successful swap, when all bytes are claimed, and
      the winner alone inserts and notifies.
   */
  ghost predicate WinnerInv(c: Config, s: State)
    requires Shaped(c, s)
  {
    && (forall t :: 0 <= t < |s.pcs| && s.pcs[t].Recording() ==> s.winner == Some(t))
    && (forall t :: 0 <= t < |s.pcs| && s.pcs[t].Swapping? ==> s.handled == |c.source|)
    && match s.winner
       case None => s.status == DOING && s.rows == 0 && s.finishes == 0
       case Some(w) =>
         && (s.status == FIN || s.status == CLOSE) && s.handled == |c.source|
         && w < |s.pcs| && (s.pcs[w].Recording() || s.pcs[w].Done?)
         && s.rows == (if s.pcs[w].Inserting? then 0 else 1)
         && s.finishes == (if s.pcs[w].Done? then 1 else 0)
  }

  ghost predicate CopiedRight(c: Config, s: State, t: nat)
    requires Shaped(c, s) && t < |s.pcs|
  {
    var off := c.ChunkOffset(t);
    forall k :: off <= k < off + Copied(c, s, t) ==> s.file[k] == c.source[k]
  }

  /** Some thread that has claimed its bytes carries the chunk in which byte k lies. */
  ghost predicate Carried(c: Config, pcs: seq<Pc>, k: nat)
    requires |pcs| == |c.deliveries|
  {
    exists t :: 0 <= t < |pcs| && pcs[t].Claimed() && c.deliveries[t] == k / CHUNK_SIZE
  }

  /** The mapped file holds source bytes where threads have copied and zeros elsewhere, and
      source bytes only in chunks that a thread with a claim carries.
   */
  ghost predicate FileInv(c: Config, s: State)
    requires Shaped(c, s)
  {
    && (forall t :: 0 <= t < |s.pcs| ==> CopiedRight(c, s, t))
    && (forall k :: 0 <= k < |s.file| && s.file[k] != 0 ==>
          s.file[k] == c.source[k] && Carried(c, s.pcs, k))
  }

  ghost predicate Active(pc: Pc) {
    pc.Copying? || pc.Checking? || pc.Swapping?
  }

  /** While the status is DOING with all bytes claimed, some thread will still try to swap. */
  ghost predicate ProgressInv(c: Config, s: State)
    requires Shaped(c, s)
  {
    s.handled == |c.source| && s.status == DOING ==> exists t :: 0 <= t < |s.pcs| && Active(s.pcs[t])
  }

  ghost predicate AcksInv(c: Config, s: State)
    requires Shaped(c, s)
  {
    && (forall i :: 0 <= i < |s.acks| ==> s.acks[i] < |s.pcs| && s.pcs[s.acks[i]].Acknowledged())
    && (forall i, j :: 0 <= i < j < |s.acks| ==> s.acks[i] != s.acks[j])
    && (forall t :: 0 <= t < |s.pcs| && s.pcs[t].Acknowledged() ==> t in s.acks)
  }

  /** Whoever was refused or skipped would not fit beside what is claimed. */
  ghost predicate TurnedAwayInv(c: Config, s: State)
    requires Shaped(c, s)
  {
    forall t :: 0 <= t < |s.pcs| && (s.pcs[t].Refused? || s.pcs[t].Skipped?) ==> s.handled + c.ChunkLen(t) > |c.source|
  }

  ghost predicate Inv(c: Config, s: State) {
    && Shaped(c, s) && HandledInv(c, s) && WinnerInv(c, s) && FileInv(c, s) && ProgressInv(c, s) && AcksInv(c, s)
    && TurnedAwayInv(c, s)
  }

  lemma {:induction false} NoneClaimed(c: Config, n: nat)
    requires c.Valid() && n <= |c.deliveries|
    ensures ClaimedBytes(c, Init(c).pcs, n) == 0
  {
    if n > 0 { NoneClaimed(c, n - 1); }
  }

  lemma InitInv(c: Config)
    requires c.Valid()
    ensures Inv(c, Init(c))
  {
    NoneClaimed(c, |c.deliveries|);
  }

  lemma HandledStep(c: Config, s: State, a: Action)
    requires Shaped(c, s) && HandledInv(c, s)
    ensures HandledInv(c, Step(c, s, a))
  {
    if a.Thread? && a.t < |s.pcs| {
      var s' := Step(c, s, a);
      ClaimedUpdate(c, s.pcs, a.t, s'.pcs[a.t], |s.pcs|);
      assert s'.pcs == s.pcs[a.t := s'.pcs[a.t]];
    }
  }

  /** A step of a thread that neither wins nor records. */
  lemma WinnerKept(c: Config, s: State, s': State, t: nat)
    requires Shaped(c, s) && Shaped(c, s') && WinnerInv(c, s)
    requires t < |s.pcs| && s'.pcs == s.pcs[t := s'.pcs[t]]
    requires !s.pcs[t].Recording() && !s'.pcs[t].Recording() && (s.pcs[t].Done? ==> s'.pcs[t].Done?)
    requires s'.status == s.status && s'.winner == s.winner && s'.rows == s.rows && s'.finishes == s.finishes
    requires s.handled <= s'.handled <= |c.source|
    requires s'.pcs[t].Swapping? ==> s'.handled == |c.source|
    ensures WinnerInv(c, s')
  {
    assert forall u :: 0 <= u < |s.pcs| && u != t ==> s'.pcs[u] == s.pcs[u];
  }

  lemma WinnerSwaps(c: Config, s: State, t: nat)
    requires Shaped(c, s) && WinnerInv(c, s)
    requires t < |s.pcs| && s.pcs[t].Swapping? && s.status == DOING
    ensures WinnerInv(c, Step(c, s, Thread(t)))
  {
    assert forall u :: 0 <= u < |s.pcs| && u != t ==> Step(c, s, Thread(t)).pcs[u] == s.pcs[u];
  }

  lemma WinnerRecords(c: Config, s: State, t: nat)
    requires Shaped(c, s) && WinnerInv(c, s)
    requires t < |s.pcs| && s.pcs[t].Recording()
    ensures WinnerInv(c, Step(c, s, Thread(t)))
  {
    assert s.winner == Some(t);
    assert forall u :: 0 <= u < |s.pcs| && u != t ==> Step(c, s, Thread(t)).pcs[u] == s.pcs[u];
  }

  lemma WinnerStep(c: Config, s: State, a: Action)
    requires Shaped(c, s) && WinnerInv(c, s) && Step(c, s, a).handled <= |c.source|
    ensures WinnerInv(c, Step(c, s, a))
  {
    if a.Thread? && a.t < |s.pcs| {
      var t := a.t;
      assert a == Thread(t);
      if s.pcs[t].Recording() {
        WinnerRecords(c, s, t);
      } else if s.pcs[t].Swapping? && s.status == DOING {
        WinnerSwaps(c, s, t);
      } else {
        WinnerKept(c, s, Step(c, s, a), t);
      }
    }
  }

  /** A claim is never given back. */
  lemma CarriedOn(c: Config, pcs: seq<Pc>, pcs': seq<Pc>, k: nat)
    requires |pcs| == |pcs'| == |c.deliveries| && Carried(c, pcs, k)
    requires forall t :: 0 <= t < |pcs| && pcs[t].Claimed() ==> pcs'[t].Claimed()
    ensures Carried(c, pcs', k)
  {
  }

  lemma CopyStep(c: Config, s: State, t: nat, n: nat)
    requires Shaped(c, s) && FileInv(c, s)
    requires t < |s.pcs| && s.pcs[t] == Copying(n) && n < c.ChunkLen(t)
    ensures FileInv(c, Step(c, s, Thread(t)))
  {
    var s', pos := Step(c, s, Thread(t)), c.ChunkOffset(t) + n;
    assert s'.pcs == s.pcs[t := Copying(n + 1)];
    forall u | 0 <= u < |s.pcs| ensures CopiedRight(c, s', u) {
      assert CopiedRight(c, s, u);
      if u == t { assert s'.pcs[u] == Copying(n + 1); } else { assert s'.pcs[u] == s.pcs[u]; }
    }
    Tiling(|c.source|, pos, c.deliveries[t]);
    assert s'.pcs[t].Claimed();
    forall k | 0 <= k < |s'.file| && s'.file[k] != 0 ensures s'.file[k] == c.source[k] && Carried(c, s'.pcs, k) {
      if k != pos { CarriedOn(c, s.pcs, s'.pcs, k); }
    }
  }

  /** A step that copies nothing: the file stays, and what is copied as well. */
  lemma FileKept(c: Config, s: State, s': State)
    requires Shaped(c, s) && Shaped(c, s') && FileInv(c, s)
    requires s'.file == s.file
    requires forall t :: 0 <= t < |s.pcs| ==> Copied(c, s', t) == Copied(c, s, t) && (s.pcs[t].Claimed() ==> s'.pcs[t].Claimed())
    ensures FileInv(c, s')
  {
    forall t | 0 <= t < |s.pcs| ensures CopiedRight(c, s', t) {
      assert CopiedRight(c, s, t);
    }
    forall k | 0 <= k < |s'.file| && s'.file[k] != 0 ensures s'.file[k] == c.source[k] && Carried(c, s'.pcs, k) {
      CarriedOn(c, s.pcs, s'.pcs, k);
    }
  }

  lemma FileStep(c: Config, s: State, a: Action)
    requires Shaped(c, s) && FileInv(c, s)
    ensures FileInv(c, Step(c, s, a))
  {
    var s' := Step(c, s, a);
    if a.Thread? && a.t < |s.pcs| {
      var t := a.t;
      assert a == Thread(t);
      if s.pcs[t].Copying? && s.pcs[t].n < c.ChunkLen(t) {
        CopyStep(c, s, t, s.pcs[t].n);
      } else {
        assert s'.file == s.file;
        forall u | 0 <= u < |s.pcs|
          ensures Copied(c, s', u) == Copied(c, s, u) && (s.pcs[u].Claimed() ==> s'.pcs[u].Claimed())
        {
          if u != t { assert s'.pcs[u] == s.pcs[u]; }
        }
        FileKept(c, s, s');
      }
    } else {
      FileKept(c, s, s');
    }
  }

  /** What a step can do to a thread that is turned away by it, or was before. */
  lemma TurnedAwayBy(c: Config, s: State, a: Action, t: nat)
    requires Shaped(c, s) && HandledInv(c, s) && t < |s.pcs|
    ensures var s' := Step(c, s, a);
            && s'.handled >= s.handled
            && (s'.pcs[t].Refused? ==> s.pcs[t].Refused? || s.handled + c.ChunkLen(t) > |c.source|)
            && (s'.pcs[t].Skipped? ==> s.pcs[t].Skipped? || s.status != DOING)
  {
    assert AsUint64(|c.source| - c.ChunkLen(t)) == |c.source| - c.ChunkLen(t);
  }

  lemma TurnedAwayStep(c: Config, s: State, a: Action)
    requires Shaped(c, s) && HandledInv(c, s) && WinnerInv(c, s) && TurnedAwayInv(c, s)
    ensures TurnedAwayInv(c, Step(c, s, a))
  {
    var s' := Step(c, s, a);
    forall t | 0 <= t < |s'.pcs| && (s'.pcs[t].Refused? || s'.pcs[t].Skipped?)
      ensures s'.handled + c.ChunkLen(t) > |c.source|
    {
      TurnedAwayBy(c, s, a, t);
    }
  }

  lemma ProgressStep(c: Config, s: State, a: Action)
    requires Shaped(c, s) && ProgressInv(c, s)
    ensures ProgressInv(c, Step(c, s, a))
  {
    var s' := Step(c, s, a);
    if s'.handled == |c.source| && s'.status == DOING && a.Thread? && a.t < |s.pcs| {
      if s.handled == |c.source| {
        var t :| 0 <= t < |s.pcs| && Active(s.pcs[t]);
        assert Active(s'.pcs[t]);
      } else {
        assert Active(s'.pcs[a.t]);
      }
    }
  }

  lemma AcksStep(c: Config, s: State, a: Action)
    requires Shaped(c, s) && AcksInv(c, s)
    ensures AcksInv(c, Step(c, s, a))
  {
    if a.Thread? && a.t < |s.pcs| {
      var s' := Step(c, s, a);
      assert s'.pcs == s.pcs[a.t := s'.pcs[a.t]];
      if s'.acks == s.acks {
        assert s'.pcs[a.t].Acknowledged() == s.pcs[a.t].Acknowledged();
      } else {
        assert s'.acks == s.acks + [a.t] && s'.pcs[a.t].Acknowledged() && !s.pcs[a.t].Acknowledged();
      }
    }
  }

  lemma StepInv(c: Config, s: State, a: Action)
    requires Inv(c, s)
    ensures Inv(c, Step(c, s, a))
  {
    HandledStep(c, s, a);
    WinnerStep(c, s, a);
    FileStep(c, s, a);
    ProgressStep(c, s, a);
    AcksStep(c, s, a);
    TurnedAwayStep(c, s, a);
  }

  lemma {:induction false} RunInv(c: Config, s: State, schedule: seq<Action>)
    requires Inv(c, s)
    ensures Inv(c, Run(c, s, schedule))
    decreases |schedule|
  {
    if schedule != [] {
      StepInv(c, s, schedule[0]);
      RunInv(c, Step(c, s, schedule[0]), schedule[1..]);
    }
  }

  // ---------- safety, for any deliveries and any schedule ----------

  /** Whatever chunks are delivered and however the threads interleave: no more bytes are claimed
      than the file has, the file is recorded and PUTS_FINISH sent at most once, and only when
      the status has left DOING with every byte claimed.
   */
  lemma Safety(c: Config, schedule: seq<Action>)
    requires c.Valid()
    ensures var s := Run(c, Init(c), schedule);
            && s.handled <= |c.source|
            && s.finishes <= s.rows <= 1
            && (s.rows == 1 ==> s.status != DOING && s.handled == |c.source|)
  {
    InitInv(c);
    RunInv(c, Init(c), schedule);
  }

  // ---------- data that is no chunk of the file ----------

  /** The handled size after claims of these lengths, one after the other. */
  function Claims(total: nat, handled: nat, lens: seq<nat>): nat
    decreases |lens|
  {
    if lens == [] then handled
    else Claims(total, if handled <= AsUint64(total - lens[0]) then handled + lens[0] else handled, lens[1..])
  }

  /** Whichever of the deliveries claim their bytes and in whichever order, the handled size
      stays within the file.
   */
  ghost predicate NeverPasses(total: nat, lens: seq<nat>) {
    forall order :: multiset(order) <= multiset(lens) ==> Claims(total, 0, order) <= total
  }

  lemma {:induction false} ClaimsWithin(total: nat, handled: nat, lens: seq<nat>)
    requires handled <= total < 0x8000_0000_0000_0000 && forall i :: 0 <= i < |lens| ==> lens[i] <= total
    ensures Claims(total, handled, lens) <= total
    decreases |lens|
  {
    if lens != [] {
      assert AsUint64(total - lens[0]) == total - lens[0];
      ClaimsWithin(total, if handled <= AsUint64(total - lens[0]) then handled + lens[0] else handled, lens[1..]);
    }
  }

  /** The sizes in data PDUs are the client's word. The check against the total keeps the
      handled size within the file over all schedules exactly if no PDU is longer than the
      whole file: for a longer one the unsigned difference wraps around.
   */
  lemma ClaimsWithinIff(total: nat, lens: seq<nat>)
    requires total < 0x8000_0000_0000_0000 && forall i :: 0 <= i < |lens| ==> lens[i] < 0x1_0000_0000
    ensures NeverPasses(total, lens) <==> forall i :: 0 <= i < |lens| ==> lens[i] <= total
  {
    if forall i :: 0 <= i < |lens| ==> lens[i] <= total {
      forall order | multiset(order) <= multiset(lens) ensures Claims(total, 0, order) <= total {
        forall i | 0 <= i < |order| ensures order[i] <= total {
          assert order[i] in multiset(order) && order[i] in multiset(lens);
        }
        ClaimsWithin(total, 0, order);
      }
    } else {
      var i :| 0 <= i < |lens| && lens[i] > total;
      assert AsUint64(total - lens[i]) == total - lens[i] + 0x1_0000_0000_0000_0000;
      assert lens[i] in multiset(lens);
      assert multiset([lens[i]]) <= multiset(lens);
      assert Claims(total, 0, [lens[i]]) == Claims(total, lens[i], [lens[i]][1..]) == lens[i];
    }
  }

  /** The status only ever goes from DOING to FIN, by the thread that wins, and from FIN to
      CLOSE, exactly by the client's confirmation.
   */
  lemma StatusForward(c: Config, s: State, a: Action)
    requires Inv(c, s)
    ensures var s' := Step(c, s, a);
            && (s'.status == s.status || (s.status == DOING && s'.status == FIN) || (s.status == FIN && s'.status == CLOSE))
            && (s.status == FIN ==> (s'.status == CLOSE <==> a.ClientFinish?))
            && (s.status == DOING && s'.status == FIN ==> a.Thread? && s'.winner == Some(a.t))
  {
  }

  // ---------- when no thread has anything left to do ----------

  ghost predicate Quiet(s: State) {
    forall t :: 0 <= t < |s.pcs| ==> s.pcs[t].Over()
  }

  ghost predicate AllAccepted(s: State) {
    forall t :: 0 <= t < |s.pcs| ==> s.pcs[t].Done?
  }

  /** No thread was turned away. */
  ghost predicate NoneTurnedAway(s: State) {
    forall t :: 0 <= t < |s.pcs| ==> !s.pcs[t].Refused? && !s.pcs[t].Skipped?
  }

  /** While its claim or look at the status is still to come, the delivery fits. */
  lemma StillFits(c: Config, s: State, t: nat)
    requires Shaped(c, s) && HandledInv(c, s) && WinnerInv(c, s)
    requires DeliveredBytes(c, |c.deliveries|) <= |c.source|
    requires t < |s.pcs| && !s.pcs[t].Claimed()
    ensures s.handled + c.ChunkLen(t) <= |c.source| && s.status == DOING
    ensures AsUint64(|c.source| - c.ChunkLen(t)) == |c.source| - c.ChunkLen(t)
  {
    ClaimedBound(c, s.pcs, |s.pcs|);
    assert s.winner.None?;
  }

  lemma NoneTurnedAwayStep(c: Config, s: State, a: Action)
    requires Shaped(c, s) && HandledInv(c, s) && WinnerInv(c, s)
    requires DeliveredBytes(c, |c.deliveries|) <= |c.source| && NoneTurnedAway(s)
    ensures NoneTurnedAway(Step(c, s, a))
  {
    if a.Thread? && a.t < |s.pcs| {
      var pc := Step(c, s, a).pcs[a.t];
      assert Step(c, s, a).pcs == s.pcs[a.t := pc];
      assert !pc.Refused? && !pc.Skipped? by {
        if !s.pcs[a.t].Claimed() { StillFits(c, s, a.t); }
      }
    }
  }

  lemma {:induction false} NoneTurnedAwayRun(c: Config, s: State, schedule: seq<Action>)
    requires Inv(c, s) && DeliveredBytes(c, |c.deliveries|) <= |c.source| && NoneTurnedAway(s)
    ensures NoneTurnedAway(Run(c, s, schedule))
    decreases |schedule|
  {
    if schedule != [] {
      StepInv(c, s, schedule[0]);
      NoneTurnedAwayStep(c, s, schedule[0]);
      NoneTurnedAwayRun(c, Step(c, s, schedule[0]), schedule[1..]);
    }
  }

  /** No delivery is refused or skipped exactly when the delivered bytes do not exceed the
      file, whatever the schedule. A delivery that comes twice besides all others is such an
      excess.
   */
  lemma AllAcceptedIff(c: Config, schedule: seq<Action>)
    requires c.Valid() && Quiet(Run(c, Init(c), schedule))
    ensures AllAccepted(Run(c, Init(c), schedule)) <==> DeliveredBytes(c, |c.deliveries|) <= |c.source|
  {
    var s := Run(c, Init(c), schedule);
    InitInv(c);
    RunInv(c, Init(c), schedule);
    if AllAccepted(s) {
      ClaimedBound(c, s.pcs, |s.pcs|);
    }
    if DeliveredBytes(c, |c.deliveries|) <= |c.source| {
      NoneTurnedAwayRun(c, Init(c), schedule);
    }
  }

  // ---------- every schedule that keeps serving unfinished threads becomes quiet ----------

  function Left(c: Config, s: State, t: nat): nat
    requires Shaped(c, s) && t < |s.pcs|
  {
    match s.pcs[t]
    case Queued => c.ChunkLen(t) + 7
    case Claiming => c.ChunkLen(t) + 6
    case Copying(n) => c.ChunkLen(t) - n + 5
    case Checking => 4
    case Swapping => 3
    case Inserting => 2
    case Notifying => 1
    case _ => 0
  }

  function Work(c: Config, s: State, n: nat): nat
    requires Shaped(c, s) && n <= |s.pcs|
  {
    if n == 0 then 0 else Work(c, s, n - 1) + Left(c, s, n - 1)
  }

  lemma OthersStay(c: Config, s: State, t: nat, u: nat)
    requires Shaped(c, s) && t < |s.pcs| && u < |s.pcs| && u != t
    ensures |Step(c, s, Thread(t)).pcs| == |s.pcs| && Left(c, Step(c, s, Thread(t)), u) == Left(c, s, u)
  {
    assert Step(c, s, Thread(t)).pcs[u] == s.pcs[u];
  }

  lemma {:induction false} WorkOf(c: Config, s: State, s': State, t: nat, n: nat)
    requires Shaped(c, s) && Shaped(c, s') && t < |s.pcs| && n <= |s.pcs|
    requires forall u :: 0 <= u < |s.pcs| && u != t ==> Left(c, s', u) == Left(c, s, u)
    ensures Work(c, s', n) == Work(c, s, n) - if t < n then Left(c, s, t) - Left(c, s', t) else 0
  {
    if n > 0 { WorkOf(c, s, s', t, n - 1); }
  }

  /** Each step of an unfinished thread takes work away, so only finitely many are possible. */
  lemma StepDoesWork(c: Config, s: State, t: nat)
    requires Shaped(c, s) && t < |s.pcs| && !s.pcs[t].Over()
    ensures Work(c, Step(c, s, Thread(t)), |s.pcs|) < Work(c, s, |s.pcs|)
  {
    var s' := Step(c, s, Thread(t));
    forall u | 0 <= u < |s.pcs| && u != t ensures Left(c, s', u) == Left(c, s, u) { OthersStay(c, s, t, u); }
    WorkOf(c, s, s', t, |s.pcs|);
  }

  lemma {:induction false} BecomesQuiet(c: Config, s: State) returns (schedule: seq<Action>)
    requires Shaped(c, s)
    ensures Quiet(Run(c, s, schedule))
    decreases Work(c, s, |s.pcs|)
  {
    if Quiet(s) {
      schedule := [];
    } else {
      var t :| 0 <= t < |s.pcs| && !s.pcs[t].Over();
      StepDoesWork(c, s, t);
      var more := BecomesQuiet(c, Step(c, s, Thread(t)));
      schedule := [Thread(t)] + more;
      assert schedule[1..] == more;
    }
  }
}
