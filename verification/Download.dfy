/** A download from offset 0: the server's sending thread, the pool threads that handle the
    client's PAUSE, RESUME and CANCEL while it runs, the channel in between, and the client
    that writes the chunks into its file.
 */
module Download {
  import opened Bytes
  import opened Wire
  import opened Chunks
  import opened Connection
  import opened Options

  datatype ControlAction = Pause | Resume | Cancel {
    /** The status the action sets. */
    function Target(): int {
      match this
      case Pause => PAUSE
      case Resume => DOING
      case Cancel => CLOSE
    }
  }

  /** The file on the server, what the client's file held before, and the controls the client
      sends, each handled by a pool thread of its own.
   */
  datatype Config = Config(source: seq<byte>, initial: seq<byte>, controls: seq<ControlAction>) {
    predicate Valid() {
      0 < |source| <= MAX_FILE_SIZE
    }

    function Total(): nat {
      Count(|source|)
    }

    /** The bytes of the first n chunks. */
    function Bytes(n: nat): (k: nat)
      requires n <= Total()
      ensures k <= |source|
      ensures Valid() ==> (k == |source| <==> n == Total())
    {
      if n == Total() then |source| else Offset(n)
    }
  }

  /** Where the sending thread stands; i chunks have been counted. */
  datatype Sender =
    | Starting
    | NotStarted           // the status was not DOING
    | At(i: nat)           // at the head of the loop
    | Testing(i: nat)      // in wait, before evaluating the predicate
    | Blocking(i: nat)     // in wait, the predicate was false, not yet asleep
    | Asleep(i: nat)
    | CloseCheck(i: nat)
    | Sending(i: nat)
    | Counting(i: nat)     // chunk i is on its way, not yet counted
    | Ending(i: nat)
    | Ended(i: nat)
  {
    function Counted(): nat {
      if Starting? || NotStarted? then 0 else i
    }

    function Sent(): nat {
      if Counting? then i + 1 else Counted()
    }

    predicate Waiting() {
      Blocking? || Asleep?
    }

    predicate Within(total: nat) {
      Counted() <= total && (Counted() == total ==> total == 0 || At? || Ending? || Ended?)
    }
  }

  /** Where a thread handling a control stands. */
  datatype Controller =
    | Queued      // before comparing the status with PAUSE
    | Looking     // before comparing it with DOING
    | Setting     // before setting it
    | Notifying
    | Over

  /** lost: a notification came just before the sender fell asleep. */
  datatype Server = Server(status: int, handled: nat, sender: Sender, controllers: seq<Controller>,
                           lost: bool, channel: seq<Pdu>)

  /** verdict: what the client reported after the last byte; missing: it found a gap. */
  datatype Client = Client(file: seq<byte>, present: bool, isOpen: bool, recvBytes: nat,
                           verdict: Option<bool>, missing: bool, cancelled: bool)

  datatype State = State(server: Server, client: Client)

  datatype Action = Send | SpuriousWakeup | Control(k: nat) | Receive | CancelRequest

  function Init(c: Config): State {
    State(Server(DOING, 0, Starting, seq(|c.controls|, _ => Queued), false, []),
          Client(c.initial, true, true, 0, None, false, false))
  }

  predicate Shaped(c: Config, s: Server) {
    c.Valid() && |s.controllers| == |c.controls| && s.sender.Within(c.Total())
  }

  // ---------- the server ----------

  function SendStep(c: Config, s: Server): (s': Server)
    requires Shaped(c, s)
    ensures Shaped(c, s')
  {
    match s.sender
    case Starting => s.(sender := if s.status == DOING then At(0) else NotStarted)
    case At(i) => s.(sender := if i == c.Total() then Ending(i) else if s.status == PAUSE then Testing(i) else CloseCheck(i))
    case Testing(i) => s.(sender := if s.status == PAUSE then Blocking(i) else CloseCheck(i))
    case Blocking(i) => s.(sender := Asleep(i))
    case CloseCheck(i) => s.(sender := if s.status == CLOSE then Ending(i) else Sending(i))
    case Sending(i) => s.(channel := s.channel + [ChunkPdu(GETS_DATA, c.source, i)], sender := Counting(i))
    case Counting(i) => s.(handled := s.handled + Len(|c.source|, i), sender := At(i + 1))
    case Ending(i) => s.(status := if s.handled == |c.source| then FIN else CLOSE, sender := Ended(i))
    case _ => s
  }

  function Wakeup(s: Server): Server {
    if s.sender.Asleep? then s.(sender := Testing(s.sender.i), lost := false) else s
  }

  function ControlStep(c: Config, s: Server, k: nat): (s': Server)
    requires Shaped(c, s)
    ensures Shaped(c, s')
  {
    if k >= |s.controllers| then s
    else
      match s.controllers[k]
      case Queued => s.(controllers := s.controllers[k := if s.status == PAUSE then Setting else Looking])
      case Looking => s.(controllers := s.controllers[k := if s.status == DOING then Setting else Over])
      case Setting =>
        s.(status := c.controls[k].Target(), controllers := s.controllers[k := if c.controls[k].Pause? then Over else Notifying])
      case Notifying =>
        var woken := Wakeup(s);
        woken.(controllers := s.controllers[k := Over], lost := woken.lost || s.sender.Blocking?)
      case Over => s
  }

  // ---------- the client ----------

  /** Writing at a position of a file that is not cut off: what lies behind stays. */
  function Overwrite(file: seq<byte>, offset: nat, data: seq<byte>): seq<byte> {
    var file := if |file| < offset then file + seq(offset - |file|, _ => 0) else file;
    file[..offset] + data + if offset + |data| < |file| then file[offset + |data|..] else []
  }

  /** The data stand at the offset, and no byte of the file changed elsewhere. */
  predicate WrittenAt(was: seq<byte>, now: seq<byte>, offset: nat, data: seq<byte>) {
    && |now| == (if |was| < offset + |data| then offset + |data| else |was|)
    && now[offset..offset + |data|] == data
    && forall k :: 0 <= k < |was| && !(offset <= k < offset + |data|) ==> now[k] == was[k]
  }

  function RemoveFile(l: Client): Client {
    if l.present then l.(present := false, isOpen := false) else l
  }

  /** A PDU arrives. After the last byte the file is closed and compared by hash. */
  function Received(c: Config, l: Client, pdu: Pdu): Client
    requires pdu.TranData?
  {
    if pdu.code != GETS_DATA then RemoveFile(l)
    else if !l.isOpen then l
    else if l.recvBytes != pdu.fileOffset then RemoveFile(l).(missing := true)
    else
      var written := l.(file := Overwrite(l.file, pdu.fileOffset, pdu.data), recvBytes := l.recvBytes + pdu.chunkSize);
      if written.recvBytes != |c.source| then written
      else
        var closed := written.(isOpen := false, verdict := Some(written.file == c.source));
        if closed.file == c.source then closed else RemoveFile(closed)
  }

  /** The user cancels: an unfinished file is removed. */
  function Cancelled(c: Config, l: Client): Client {
    if l.recvBytes != |c.source| then RemoveFile(l).(cancelled := true) else l
  }

  function Step(c: Config, s: State, a: Action): (s': State)
    requires Shaped(c, s.server)
    ensures Shaped(c, s'.server)
  {
    match a
    case Send => s.(server := SendStep(c, s.server))
    case SpuriousWakeup => s.(server := Wakeup(s.server))
    case Control(k) => s.(server := ControlStep(c, s.server, k))
    case Receive =>
      if s.server.channel != [] && s.server.channel[0].TranData?
      then State(s.server.(channel := s.server.channel[1..]), Received(c, s.client, s.server.channel[0]))
      else s
    case CancelRequest => s.(client := Cancelled(c, s.client))
  }

  function Run(c: Config, s: State, schedule: seq<Action>): (s': State)
    requires Shaped(c, s.server)
    ensures Shaped(c, s'.server)
    decreases |schedule|
  {
    if schedule == [] then s else Run(c, Step(c, s, schedule[0]), schedule[1..])
  }

  // ---------- the steps as the programs perform them ----------

  /** The connection, its sending thread and the threads that handle controls. */
  class GetsTask {
    const con: UpDownCon
    const fileMap: seq<byte>
    const controls: seq<ControlAction>
    ghost const initial: seq<byte>
    var sender: Sender
    var controllers: seq<Controller>
    var channel: seq<Pdu>
    ghost var lost: bool

    ghost function C(): Config {
      Config(fileMap, initial, controls)
    }

    ghost function Abs(): Server
      reads this, con
    {
      Server(con.status, con.handledSize, sender, controllers, lost, channel)
    }

    ghost predicate Valid()
      reads this, con
    {
      Shaped(C(), Abs())
    }

    constructor (c: Config)
      requires c.Valid()
      ensures Valid() && C() == c && Abs() == Init(c).server && fresh(con)
    {
      con := new UpDownCon();
      fileMap, controls, initial := c.source, c.controls, c.initial;
      sender, controllers, channel, lost := Starting, seq(|c.controls|, _ => Queued), [], false;
    }

    /** The next atomic action of the sending thread. */
    method SendFileData()
      requires Valid()
      modifies this, con
      ensures Valid() && Abs() == SendStep(C(), old(Abs()))
    {
      var total := |fileMap|;
      var totalChunks := (total - 1) / CHUNK_SIZE + 1;
      match sender {
        case Starting =>
          sender := if con.status == DOING then At(0) else NotStarted;
        case At(i) =>
          if i < totalChunks {
            sender := if con.status == PAUSE then Testing(i) else CloseCheck(i);
          } else {
            sender := Ending(i);
          }
        case Testing(i) =>
          sender := if con.status != PAUSE then CloseCheck(i) else Blocking(i);
        case Blocking(i) =>
          sender := Asleep(i);
        case CloseCheck(i) =>
          sender := if con.status == CLOSE then Ending(i) else Sending(i);
        case Sending(i) =>
          var offset := i * CHUNK_SIZE;
          var n := if i == totalChunks - 1 then total - CHUNK_SIZE * (totalChunks - 1) else CHUNK_SIZE;
          channel := channel + [TranData(Header(TRANDATA_TYPE, TRANDATA_BODY_BASE_LEN + n, 0, 0), GETS_DATA, 0, offset, n,
                                         totalChunks, i, 0, fileMap[offset..offset + n])];
          sender := Counting(i);
        case Counting(i) =>
          var n := if i == totalChunks - 1 then total - CHUNK_SIZE * (totalChunks - 1) else CHUNK_SIZE;
          con.handledSize := con.handledSize + n;
          sender := At(i + 1);
        case Ending(i) =>
          if con.handledSize == total { con.status := FIN; } else { con.status := CLOSE; }
          sender := Ended(i);
        case _ =>
      }
    }

    /** A notification or a spurious wakeup lets a sleeping sender test its predicate again. */
    method NotifyOne()
      requires Valid()
      modifies this
      ensures Valid() && Abs() == Wakeup(old(Abs()))
    {
      if sender.Asleep? {
        sender := Testing(sender.i);
        lost := false;
      }
    }

    /** The next atomic action of the thread handling control k. */
    method Control(k: nat)
      requires Valid() && k < |controls|
      modifies this, con
      ensures Valid() && Abs() == ControlStep(C(), old(Abs()), k)
    {
      match controllers[k] {
        case Queued =>
          controllers := controllers[k := if con.status == PAUSE then Setting else Looking];
        case Looking =>
          controllers := controllers[k := if con.status == DOING then Setting else Over];
        case Setting =>
          con.status := controls[k].Target();
          controllers := controllers[k := if controls[k] == Pause then Over else Notifying];
        case Notifying =>
          ghost var blocking := sender.Blocking?;
          NotifyOne();
          lost := lost || blocking;
          controllers := controllers[k := Over];
        case Over =>
      }
    }
  }

  /** The client's download; the hash it was sent is that of the source. */
  class DownTool {
    ghost const c: Config
    const fileSize: nat
    const fileHash: seq<byte>
    var file: seq<byte>
    var present: bool
    var isOpen: bool
    var recvBytes: nat
    var verdict: Option<bool>
    ghost var missing: bool
    ghost var cancelled: bool

    /** The hash is that of the source; only a file that is there is open. */
    ghost predicate Valid()
      reads this
    {
      fileSize == |c.source| && fileHash == c.source && (isOpen ==> present)
    }

    ghost function Abs(): Client
      reads this
    {
      Client(file, present, isOpen, recvBytes, verdict, missing, cancelled)
    }

    /** The file is opened for reading and writing, so it keeps what it held. */
    constructor (c: Config)
      ensures Valid() && this.c == c && Abs() == Init(c).client
    {
      this.c := c;
      fileSize, fileHash := |c.source|, c.source;
      file, present, isOpen, recvBytes, verdict, missing, cancelled := c.initial, true, true, 0, None, false, false;
    }

    method Remove()
      requires Valid()
      modifies this
      ensures Valid() && Abs() == RemoveFile(old(Abs()))
      ensures !present && !isOpen
    {
      if present {
        isOpen := false;
        present := false;
      }
    }

    method HandleRecvTranDataPdu(pdu: Pdu)
      requires Valid() && pdu.TranData?
      modifies this
      ensures Valid() && Abs() == Received(c, old(Abs()), pdu)
      ensures pdu.code != GETS_DATA ==> !present && recvBytes == old(recvBytes) && verdict == old(verdict)
      ensures pdu.code == GETS_DATA && !old(isOpen) ==> Abs() == old(Abs())
      ensures pdu.code == GETS_DATA && old(isOpen) && pdu.fileOffset != old(recvBytes) ==>
                !present && missing && recvBytes == old(recvBytes) && verdict == old(verdict)
      ensures pdu.code == GETS_DATA && old(isOpen) && pdu.fileOffset == old(recvBytes) ==>
                && recvBytes == old(recvBytes) + pdu.chunkSize && WrittenAt(old(file), file, pdu.fileOffset, pdu.data)
                && (recvBytes == fileSize ==> !isOpen && verdict == Some(file == fileHash) && (present <==> file == fileHash))
                && (recvBytes != fileSize ==> isOpen && present && verdict == old(verdict))
    {
      if pdu.code == GETS_DATA {
        if !isOpen {
          return;
        }
        if recvBytes != pdu.fileOffset {
          Remove();
          missing := true;
          return;
        }
        file := Overwrite(file, pdu.fileOffset, pdu.data);
        recvBytes := recvBytes + pdu.chunkSize;
        if recvBytes == fileSize {
          isOpen := false;
          verdict := Some(file == fileHash);
          if file != fileHash {
            Remove();
          }
        }
      } else {
        Remove();
      }
    }

    /** The user cancels. An unfinished file is removed, a finished one kept. */
    method SendCancelRequest()
      requires Valid()
      modifies this
      ensures Valid() && Abs() == Cancelled(c, old(Abs()))
      ensures old(recvBytes) != fileSize ==>
                && !present && !isOpen && cancelled
                && recvBytes == old(recvBytes) && verdict == old(verdict) && missing == old(missing) && file == old(file)
      ensures old(recvBytes) == fileSize ==> Abs() == old(Abs())
    {
      if recvBytes != fileSize {
        Remove();
        cancelled := true;
      }
    }
  }

  // ---------- the invariant ----------

  ghost predicate ServerInv(c: Config, s: Server)
    requires Shaped(c, s)
  {
    && s.handled == c.Bytes(s.sender.Counted())
    && (s.sender.Ending? || s.sender.Ended? ==> s.sender.i == c.Total() || Cancel in c.controls)
    && (s.status == CLOSE ==> Cancel in c.controls)
  }

  /** The channel holds the latest chunks sent, in order. */
  ghost predicate ChannelInv(c: Config, sent: nat, channel: seq<Pdu>)
    requires c.Valid()
  {
    && |channel| <= sent <= c.Total()
    && forall j :: 0 <= j < |channel| ==> channel[j] == ChunkPdu(GETS_DATA, c.source, sent - |channel| + j)
  }

  /** The first n bytes of the source over what the file held before. */
  function Overlay(c: Config, n: nat): seq<byte>
    requires n <= |c.source|
  {
    c.source[..n] + if n < |c.initial| then c.initial[n..] else []
  }

  /** n chunks have been taken from the channel. */
  ghost predicate ClientInv(c: Config, l: Client, n: nat)
    requires c.Valid() && n <= c.Total()
  {
    && !l.missing && (l.isOpen ==> l.present && l.verdict.None? && !l.cancelled)
    && (l.isOpen || l.verdict.Some? ==> l.recvBytes == c.Bytes(n) && l.file == Overlay(c, c.Bytes(n)))
    && (l.isOpen ==> l.recvBytes < |c.source|)
    && (l.verdict.Some? ==> l.recvBytes == |c.source| && l.verdict.value == (l.file == c.source) == l.present)
    && (!l.isOpen && l.verdict.None? ==> !l.present && l.cancelled)
    && (l.cancelled ==> l.recvBytes != |c.source|)
  }

  /** A sender that waits although it could go on has a notification coming, or lost one. */
  ghost predicate WakeInv(s: Server) {
    && (s.lost ==> s.sender.Waiting())
    && (s.sender.Waiting() && s.status != PAUSE ==> s.lost || exists k :: 0 <= k < |s.controllers| && s.controllers[k].Notifying?)
  }

  ghost predicate Inv(c: Config, s: State) {
    && Shaped(c, s.server) && ServerInv(c, s.server) && ChannelInv(c, s.server.sender.Sent(), s.server.channel) && WakeInv(s.server)
    && ClientInv(c, s.client, s.server.sender.Sent() - |s.server.channel|)
  }

  lemma InitInv(c: Config)
    requires c.Valid()
    ensures Inv(c, Init(c))
  {
    assert Overlay(c, 0) == c.initial;
  }

  lemma SendServerInv(c: Config, s: Server)
    requires Shaped(c, s) && ServerInv(c, s)
    ensures ServerInv(c, SendStep(c, s))
  {
  }

  lemma ChannelMore(c: Config, sent: nat, channel: seq<Pdu>)
    requires c.Valid() && sent < c.Total() && ChannelInv(c, sent, channel)
    ensures ChannelInv(c, sent + 1, channel + [ChunkPdu(GETS_DATA, c.source, sent)])
  {
  }

  /** Only one step sends: it puts the next chunk behind the others. */
  lemma SendsNextChunk(c: Config, s: Server)
    requires Shaped(c, s)
    ensures var s' := SendStep(c, s);
            if s.sender.Sending?
            then s'.channel == s.channel + [ChunkPdu(GETS_DATA, c.source, s.sender.i)] && s'.sender.Sent() == s.sender.i + 1
            else s'.channel == s.channel && s'.sender.Sent() == s.sender.Sent()
  {
  }

  lemma SendChannelInv(c: Config, s: Server)
    requires Shaped(c, s) && ChannelInv(c, s.sender.Sent(), s.channel)
    ensures var s' := SendStep(c, s);
            && ChannelInv(c, s'.sender.Sent(), s'.channel)
            && s'.sender.Sent() - |s'.channel| == s.sender.Sent() - |s.channel|
  {
    var sent, channel := SendStep(c, s).sender.Sent(), SendStep(c, s).channel;
    SendsNextChunk(c, s);
    if s.sender.Sending? { ChannelMore(c, s.sender.i, s.channel); }
    assert ChannelInv(c, sent, channel);
  }

  lemma SendWakeInv(c: Config, s: Server)
    requires Shaped(c, s) && WakeInv(s)
    ensures WakeInv(SendStep(c, s))
  {
    assert SendStep(c, s).controllers == s.controllers;
  }

  lemma ControlServerInv(c: Config, s: Server, k: nat)
    requires Shaped(c, s) && ServerInv(c, s)
    ensures ServerInv(c, ControlStep(c, s, k))
    ensures var s' := ControlStep(c, s, k);
            s'.sender.Counted() == s.sender.Counted() && s'.sender.Sent() == s.sender.Sent() && s'.channel == s.channel
  {
  }

  lemma ControlWakeInv(c: Config, s: Server, k: nat)
    requires Shaped(c, s) && WakeInv(s)
    ensures WakeInv(ControlStep(c, s, k))
  {
    var s' := ControlStep(c, s, k);
    if k < |s.controllers| {
      assert s'.controllers == s.controllers[k := s'.controllers[k]];
      if s'.sender.Waiting() && s'.status != PAUSE && !s'.lost {
        if s.controllers[k].Setting? {
          assert s'.controllers[k].Notifying?;
        } else {
          var j :| 0 <= j < |s.controllers| && s.controllers[j].Notifying?;
          assert s'.controllers[j].Notifying?;
        }
      }
    }
  }

  /** The chunk that continues the file. */
  lemma ReceivedInv(c: Config, l: Client, n: nat)
    requires c.Valid() && n < c.Total() && ClientInv(c, l, n)
    ensures ClientInv(c, Received(c, l, ChunkPdu(GETS_DATA, c.source, n)), n + 1)
  {
    if l.isOpen {
      var off, len := Offset(n), Len(|c.source|, n);
      assert c.Bytes(n) == off && c.Bytes(n + 1) == off + len;
      assert Overwrite(Overlay(c, off), off, c.source[off..off + len]) == Overlay(c, off + len);
    }
  }

  lemma ReceiveInv(c: Config, s: State)
    requires Inv(c, s)
    ensures Inv(c, Step(c, s, Receive))
  {
    if s.server.channel != [] {
      ReceivedInv(c, s.client, s.server.sender.Sent() - |s.server.channel|);
    }
  }

  lemma StepInv(c: Config, s: State, a: Action)
    requires Inv(c, s)
    ensures Inv(c, Step(c, s, a))
  {
    match a
    case Send => SendServerInv(c, s.server); SendChannelInv(c, s.server); SendWakeInv(c, s.server);
    case SpuriousWakeup =>
    case Control(k) => ControlServerInv(c, s.server, k); ControlWakeInv(c, s.server, k);
    case Receive => ReceiveInv(c, s);
    case CancelRequest =>
  }

  lemma {:induction false} RunInv(c: Config, s: State, schedule: seq<Action>)
    requires Inv(c, s)
    ensures Inv(c, Run(c, s, schedule))
    decreases |schedule|
  {
    if schedule != [] {
      StepInv(c, s, schedule[0]);
      RunInv(c, Step(c, s, schedule[0]), schedule[1..]);
    }
  }

  // ---------- the client's file ----------

  /** Under any schedule of pauses, resumes, cancellations and arrivals: no gap is ever found,
      and as long as the file is open its received part is the source's.
   */
  lemma PrefixReceived(c: Config, schedule: seq<Action>)
    requires c.Valid()
    ensures var l := Run(c, Init(c), schedule).client;
            && !l.missing
            && (l.isOpen ==> l.recvBytes <= |l.file| && l.recvBytes < |c.source|
                             && l.file[..l.recvBytes] == c.source[..l.recvBytes])
  {
    InitInv(c);
    RunInv(c, Init(c), schedule);
  }

  /** What is on its way are the next chunks, in order and without a gap, each with its place,
      length and bytes under the code of download data.
   */
  lemma ChannelCarries(c: Config, schedule: seq<Action>)
    requires c.Valid()
    ensures var s := Run(c, Init(c), schedule).server;
            forall j :: 0 <= j < |s.channel| ==>
              |s.channel| <= s.sender.Sent()
              && CarriesChunk(s.channel[j], GETS_DATA, c.source, s.sender.Sent() - |s.channel| + j)
  {
    InitInv(c);
    RunInv(c, Init(c), schedule);
    var s := Run(c, Init(c), schedule).server;
    forall j | 0 <= j < |s.channel| ensures CarriesChunk(s.channel[j], GETS_DATA, c.source, s.sender.Sent() - |s.channel| + j) {
      ChunkPduCarries(GETS_DATA, c.source, s.sender.Sent() - |s.channel| + j);
    }
  }

  /** Once all chunks are sent and received and the user has not cancelled, the client has
      given its verdict. The file is kept, and is the source, exactly if the client's file was
      no longer than the source when it was opened; otherwise its old end is still there.
   */
  lemma AllReceived(c: Config, schedule: seq<Action>)
    requires c.Valid()
    requires var s := Run(c, Init(c), schedule);
             s.server.sender.Sent() == c.Total() && s.server.channel == [] && !s.client.cancelled
    ensures var l := Run(c, Init(c), schedule).client;
            && l.recvBytes == |c.source| && l.verdict == Some(|c.initial| <= |c.source|)
            && (l.present <==> |c.initial| <= |c.source|)
            && (l.present <==> l.file == c.source)
  {
    InitInv(c);
    RunInv(c, Init(c), schedule);
    assert |c.initial| <= |c.source| ==> Overlay(c, |c.source|) == c.source;
    assert |c.initial| > |c.source| ==> |Overlay(c, |c.source|)| > |c.source|;
  }

  // ---------- cancelling ----------

  ghost predicate Gone(l: Client, n: nat) {
    !l.present && !l.isOpen && l.cancelled && l.recvBytes == n && l.verdict.None?
  }

  lemma {:induction false} GoneStays(c: Config, s: State, schedule: seq<Action>, n: nat)
    requires Shaped(c, s.server) && Gone(s.client, n) && n != |c.source|
    ensures Gone(Run(c, s, schedule).client, n)
    decreases |schedule|
  {
    if schedule != [] { GoneStays(c, Step(c, s, schedule[0]), schedule[1..], n); }
  }

  /** A download that is cancelled before its last byte has come: from then on, whatever
      happens, the file is gone, no byte is received and no verdict is given.
   */
  lemma CancelLasts(c: Config, before: seq<Action>, after: seq<Action>)
    requires c.Valid() && Run(c, Init(c), before).client.recvBytes != |c.source|
    ensures var l := Run(c, Init(c), before + [CancelRequest] + after).client;
            && !l.present && !l.isOpen && l.verdict.None?
            && l.recvBytes == Run(c, Init(c), before).client.recvBytes
  {
    var s := Run(c, Init(c), before);
    InitInv(c);
    RunInv(c, Init(c), before);
    RunOne(c, s, CancelRequest);
    RunSplit(c, Init(c), before, [CancelRequest]);
    RunSplit(c, Init(c), before + [CancelRequest], after);
    GoneStays(c, Run(c, Init(c), before + [CancelRequest]), after, s.client.recvBytes);
  }

  /** One that is cancelled later is not disturbed. */
  lemma CancelTooLate(c: Config, before: seq<Action>, after: seq<Action>)
    requires c.Valid() && Run(c, Init(c), before).client.recvBytes == |c.source|
    ensures Run(c, Init(c), before + [CancelRequest] + after) == Run(c, Init(c), before + after)
  {
    var s := Run(c, Init(c), before);
    RunOne(c, s, CancelRequest);
    RunSplit(c, Init(c), before, [CancelRequest]);
    RunSplit(c, Init(c), before + [CancelRequest], after);
    RunSplit(c, Init(c), before, after);
  }

  /** So a download counts as cancelled exactly if the user cancelled it in time. */
  ghost predicate CancelledInTime(c: Config, schedule: seq<Action>, i: nat)
    requires c.Valid()
  {
    i < |schedule| && schedule[i] == CancelRequest && Run(c, Init(c), schedule[..i]).client.recvBytes != |c.source|
  }

  lemma {:induction false} CancelledIff(c: Config, schedule: seq<Action>)
    requires c.Valid()
    ensures Run(c, Init(c), schedule).client.cancelled <==> exists i :: CancelledInTime(c, schedule, i)
    decreases |schedule|
  {
    if schedule != [] {
      var last := |schedule| - 1;
      var before := schedule[..last];
      assert schedule == before + [schedule[last]];
      CancelledIff(c, before);
      RunSplit(c, Init(c), before, [schedule[last]]);
      RunOne(c, Run(c, Init(c), before), schedule[last]);
      forall i | 0 <= i < last ensures CancelledInTime(c, schedule, i) <==> CancelledInTime(c, before, i) {
        assert schedule[..i] == before[..i];
      }
      assert CancelledInTime(c, schedule, last) <==>
        schedule[last] == CancelRequest && Run(c, Init(c), before).client.recvBytes != |c.source|;
      assert forall i :: CancelledInTime(c, schedule, i) ==> i == last || CancelledInTime(c, before, i);
    }
  }

  // ---------- how the server ends ----------

  /** If it came to send at all, the sender leaves FIN at its end exactly if it has sent all
      chunks, else CLOSE, and it stops early only if the client sent a CANCEL.
   */
  lemma EndStatus(c: Config, schedule: seq<Action>)
    requires c.Valid() && Run(c, Init(c), schedule).server.sender.Ending?
    ensures var s := Run(c, Init(c), schedule);
            var s' := Step(c, s, Send).server;
            && s'.sender.Ended? && s'.status == (if s'.sender.Sent() == c.Total() then FIN else CLOSE)
            && (s'.status == CLOSE ==> Cancel in c.controls)
  {
    InitInv(c);
    RunInv(c, Init(c), schedule);
  }

  /** A control that passed its check earlier is still to set a status other than the present. */
  ghost predicate Stale(c: Config, s: Server)
    requires Shaped(c, s)
  {
    exists k :: 0 <= k < |s.controllers| && s.controllers[k].Setting? && c.controls[k].Target() != s.status
  }

  lemma SettledStep(c: Config, s: State, a: Action)
    requires Shaped(c, s.server) && s.server.sender.Ended? && (s.server.status == FIN || s.server.status == CLOSE)
    requires !Stale(c, s.server)
    ensures var s' := Step(c, s, a);
            s'.server.sender.Ended? && s'.server.status == s.server.status && !Stale(c, s'.server)
  {
    var s' := Step(c, s, a);
    if a.Control? && a.k < |s.server.controllers| {
      assert s'.server.controllers == s.server.controllers[a.k := s'.server.controllers[a.k]];
    }
  }

  lemma {:induction false} SettledRun(c: Config, s: State, schedule: seq<Action>)
    requires Shaped(c, s.server) && s.server.sender.Ended? && (s.server.status == FIN || s.server.status == CLOSE)
    requires !Stale(c, s.server)
    ensures Run(c, s, schedule).server.status == s.server.status
    decreases |schedule|
  {
    if schedule != [] {
      SettledStep(c, s, schedule[0]);
      SettledRun(c, Step(c, s, schedule[0]), schedule[1..]);
    }
  }

  /** What the sender has left is changed later exactly if such a stale control is pending:
      the check and the setting of a control are two steps.
   */
  lemma EndStatusChangesIff(c: Config, s: State)
    requires Shaped(c, s.server) && s.server.sender.Ended? && (s.server.status == FIN || s.server.status == CLOSE)
    ensures (exists schedule :: Run(c, s, schedule).server.status != s.server.status) <==> Stale(c, s.server)
  {
    if Stale(c, s.server) {
      var k :| 0 <= k < |s.server.controllers| && s.server.controllers[k].Setting?
               && c.controls[k].Target() != s.server.status;
      RunOne(c, s, Control(k));
    } else {
      forall schedule ensures Run(c, s, schedule).server.status == s.server.status {
        SettledRun(c, s, schedule);
      }
    }
  }

  /** Left alone with the status DOING the sender sends everything and ends with FIN. */
  lemma {:induction false} SendsAll(c: Config, s: State) returns (schedule: seq<Action>)
    requires Shaped(c, s.server) && ServerInv(c, s.server) && s.server.status == DOING
    requires !s.server.sender.Waiting() && !s.server.sender.Starting? && !s.server.sender.NotStarted?
    requires !s.server.sender.Ended? && (s.server.sender.Ending? ==> s.server.sender.i == c.Total())
    ensures var s' := Run(c, s, schedule);
            && s'.server.sender == Ended(c.Total()) && s'.server.status == FIN
            && s'.server.controllers == s.server.controllers && s'.client == s.client
    decreases c.Total() - s.server.sender.Counted(), Rank(s.server.sender)
  {
    SendServerInv(c, s.server);
    RunOne(c, s, Send);
    if s.server.sender.Ending? {
      schedule := [Send];
    } else {
      var rest := SendsAll(c, Step(c, s, Send));
      RunSplit(c, s, [Send], rest);
      schedule := [Send] + rest;
    }
  }

  function Rank(sender: Sender): nat {
    match sender
    case At(_) => 5
    case Testing(_) => 4
    case CloseCheck(_) => 3
    case Sending(_) => 2
    case Counting(_) => 1
    case _ => 0
  }

  /** The status after FIN does change: any control that is checked before the end and set
      after it replaces FIN, though all chunks are sent.
   */
  lemma StaleControl(c: Config, k: nat) returns (schedule: seq<Action>)
    requires c.Valid() && k < |c.controls|
    ensures var s := Run(c, Init(c), schedule).server; s.sender == Ended(c.Total()) && s.status == c.controls[k].Target()
  {
    var s0 := Init(c);
    var s1 := Step(c, s0, Send);
    var s2 := Step(c, s1, Control(k));
    var s3 := Step(c, s2, Control(k));
    InitInv(c);
    RunThree(c, s0, Send, Control(k), Control(k));
    RunInv(c, s0, [Send, Control(k), Control(k)]);
    var sends := SendsAll(c, s3);
    var s4 := Run(c, s3, sends);
    RunSplit(c, s0, [Send, Control(k), Control(k)], sends);
    RunOne(c, s4, Control(k));
    RunSplit(c, s0, [Send, Control(k), Control(k)] + sends, [Control(k)]);
    schedule := [Send, Control(k), Control(k)] + sends + [Control(k)];
  }

  /** All chunks are sent and the status is not FIN, without which nothing confirms them. */
  ghost predicate FinLostAfter(c: Config, schedule: seq<Action>)
    requires c.Valid()
  {
    var s := Run(c, Init(c), schedule).server; s.sender == Ended(c.Total()) && s.status != FIN
  }

  /** Without controls only the sender changes the status. */
  ghost predicate Undisturbed(c: Config, s: Server) {
    c.controls == [] ==> s.status == if s.sender.Ended? then FIN else DOING
  }

  lemma {:induction false} UndisturbedRun(c: Config, s: State, schedule: seq<Action>)
    requires Inv(c, s) && Undisturbed(c, s.server)
    ensures Undisturbed(c, Run(c, s, schedule).server)
    decreases |schedule|
  {
    if schedule != [] {
      StepInv(c, s, schedule[0]);
      UndisturbedRun(c, Step(c, s, schedule[0]), schedule[1..]);
    }
  }

  /** A complete download can lose its FIN exactly if the client sends any control at all. */
  lemma FinLostIff(c: Config)
    requires c.Valid()
    ensures (exists schedule :: FinLostAfter(c, schedule)) <==> c.controls != []
  {
    if c.controls != [] {
      var schedule := StaleControl(c, 0);
      assert FinLostAfter(c, schedule);
    } else {
      InitInv(c);
      forall schedule ensures !FinLostAfter(c, schedule) {
        UndisturbedRun(c, Init(c), schedule);
      }
    }
  }

  /** The sender has ended before all chunks were sent. */
  ghost predicate CutShortAfter(c: Config, schedule: seq<Action>)
    requires c.Valid()
  {
    var sender := Run(c, Init(c), schedule).server.sender; sender.Ended? && sender.i < c.Total()
  }

  /** A sender that has started can be cut short exactly if the client sends a CANCEL. */
  lemma CutShortIff(c: Config)
    requires c.Valid()
    ensures (exists schedule :: CutShortAfter(c, schedule)) <==> Cancel in c.controls
  {
    InitInv(c);
    if Cancel in c.controls {
      var k :| 0 <= k < |c.controls| && c.controls[k] == Cancel;
      var s0 := Init(c);
      var s1 := Step(c, s0, Send);
      var s2 := Step(c, Step(c, Step(c, s1, Control(k)), Control(k)), Control(k));
      RunOne(c, s0, Send);
      RunThree(c, s1, Control(k), Control(k), Control(k));
      RunThree(c, s2, Send, Send, Send);
      RunSplit(c, s0, [Send], [Control(k), Control(k), Control(k)]);
      RunSplit(c, s0, [Send] + [Control(k), Control(k), Control(k)], [Send, Send, Send]);
      assert s2.server.status == CLOSE && s2.server.sender == At(0);
      assert CutShortAfter(c, [Send] + [Control(k), Control(k), Control(k)] + [Send, Send, Send]);
    } else {
      forall schedule ensures !CutShortAfter(c, schedule) {
        RunInv(c, Init(c), schedule);
      }
    }
  }

  // ---------- downloads that never start ----------

  /** The sender found a status other than DOING and has gone without sending anything. */
  ghost predicate NotStartedAfter(c: Config, schedule: seq<Action>)
    requires c.Valid()
  {
    Run(c, Init(c), schedule).server.sender.NotStarted?
  }

  /** And yet the status is DOING. */
  ghost predicate DeadAfter(c: Config, schedule: seq<Action>)
    requires c.Valid()
  {
    NotStartedAfter(c, schedule) && Run(c, Init(c), schedule).server.status == DOING
  }

  /** A sender that has not started never will: nothing is ever sent or received. */
  lemma {:induction false} NeverStarts(c: Config, s: State, schedule: seq<Action>)
    requires Inv(c, s) && s.server.sender.NotStarted?
    ensures var s' := Run(c, s, schedule);
            s'.server.sender.NotStarted? && s'.server.channel == [] && s'.client.verdict.None?
    decreases |schedule|
  {
    assert c.Valid() && c.Bytes(0) < |c.source|;
    if schedule != [] {
      StepInv(c, s, schedule[0]);
      NeverStarts(c, Step(c, s, schedule[0]), schedule[1..]);
    }
  }

  /** Without a PAUSE or CANCEL the sender finds DOING; without a RESUME no DOING comes back. */
  ghost predicate MustStart(c: Config, s: Server) {
    && (Pause !in c.controls && Cancel !in c.controls ==> !s.sender.NotStarted? && (s.sender.Starting? ==> s.status == DOING))
    && (Resume !in c.controls && s.sender.NotStarted? ==> s.status != DOING)
  }

  lemma MustStartStep(c: Config, s: State, a: Action)
    requires Shaped(c, s.server) && MustStart(c, s.server)
    ensures MustStart(c, Step(c, s, a).server)
  {
    if a.Control? && a.k < |c.controls| {
      assert c.controls[a.k] in c.controls;
    }
  }

  lemma {:induction false} MustStartRun(c: Config, s: State, schedule: seq<Action>)
    requires Shaped(c, s.server) && MustStart(c, s.server)
    ensures MustStart(c, Run(c, s, schedule).server)
    decreases |schedule|
  {
    if schedule != [] {
      MustStartStep(c, s, schedule[0]);
      MustStartRun(c, Step(c, s, schedule[0]), schedule[1..]);
    }
  }

  /** A control is handled before the sender looks at the status. */
  lemma TooEarly(c: Config, p: nat) returns (schedule: seq<Action>)
    requires c.Valid() && p < |c.controls| && c.controls[p] != Resume
    ensures NotStartedAfter(c, schedule)
  {
    var s0 := Init(c);
    var s1 := Step(c, Step(c, Step(c, s0, Control(p)), Control(p)), Control(p));
    assert s1.server.status == c.controls[p].Target() && s1.server.sender.Starting?;
    RunThree(c, s0, Control(p), Control(p), Control(p));
    RunOne(c, s1, Send);
    RunSplit(c, s0, [Control(p), Control(p), Control(p)], [Send]);
    schedule := [Control(p), Control(p), Control(p)] + [Send];
  }

  /** A RESUME that is checked before and set after brings the status back, not the sender. */
  lemma ResumedTooLate(c: Config, p: nat, r: nat) returns (schedule: seq<Action>)
    requires c.Valid() && p < |c.controls| && r < |c.controls| && c.controls[p] != Resume && c.controls[r] == Resume
    ensures DeadAfter(c, schedule)
  {
    var s0 := Init(c);
    var s1 := Step(c, Step(c, s0, Control(r)), Control(r));
    var s2 := Step(c, Step(c, Step(c, s1, Control(p)), Control(p)), Control(p));
    var s3 := Step(c, s2, Send);
    assert s1.server.controllers == s0.server.controllers[r := Setting] && s1.server.status == DOING;
    assert s2.server.controllers[r] == Setting && s2.server.status == c.controls[p].Target() && s2.server.sender.Starting?;
    assert s3.server.sender.NotStarted? && s3.server.controllers == s2.server.controllers;
    RunOne(c, s0, Control(r));
    RunOne(c, Step(c, s0, Control(r)), Control(r));
    RunSplit(c, s0, [Control(r)], [Control(r)]);
    RunThree(c, s1, Control(p), Control(p), Control(p));
    RunOne(c, s2, Send);
    RunOne(c, s3, Control(r));
    var a, b := [Control(r)] + [Control(r)], [Control(p), Control(p), Control(p)];
    RunSplit(c, s0, a, b);
    RunSplit(c, s0, a + b, [Send]);
    RunSplit(c, s0, a + b + [Send], [Control(r)]);
    schedule := a + b + [Send] + [Control(r)];
  }

  /** A download can fail to start exactly if its client sends a PAUSE or a CANCEL, and can
      then stand at DOING, as if it were running, exactly if it also sends a RESUME.
   */
  lemma NotStartedIff(c: Config)
    requires c.Valid()
    ensures (exists schedule :: NotStartedAfter(c, schedule)) <==> Pause in c.controls || Cancel in c.controls
    ensures (exists schedule :: DeadAfter(c, schedule))
       <==> (Pause in c.controls || Cancel in c.controls) && Resume in c.controls
  {
    forall schedule ensures MustStart(c, Run(c, Init(c), schedule).server) { MustStartRun(c, Init(c), schedule); }
    if Pause in c.controls || Cancel in c.controls {
      var p :| 0 <= p < |c.controls| && c.controls[p] != Resume;
      var schedule := TooEarly(c, p);
      if Resume in c.controls {
        var r :| 0 <= r < |c.controls| && c.controls[r] == Resume;
        var late := ResumedTooLate(c, p, r);
      }
    }
  }

  /** A PAUSE right at the start, and a RESUME: both are handled, the status is DOING, and
      nothing was or ever will be sent.
   */
  lemma NeverStartedExample(source: seq<byte>) returns (c: Config, schedule: seq<Action>)
    requires 0 < |source| <= MAX_FILE_SIZE
    ensures c == Config(source, [], [Pause, Resume])
    ensures DeadAfter(c, schedule) && Run(c, Init(c), schedule).server.controllers == [Over, Over]
  {
    c := Config(source, [], [Pause, Resume]);
    var s0 := Init(c);
    var s1 := Step(c, Step(c, Step(c, s0, Control(0)), Control(0)), Control(0));
    var s2 := Step(c, s1, Send);
    RunThree(c, s0, Control(0), Control(0), Control(0));
    RunOne(c, s1, Send);
    RunThree(c, s2, Control(1), Control(1), Control(1));
    var a, b := [Control(0), Control(0), Control(0)], [Control(1), Control(1), Control(1)];
    RunSplit(c, s0, a, [Send]);
    RunSplit(c, s0, a + [Send], b);
    schedule := a + [Send] + b;
    assert s1.server.controllers == [Over, Queued] && s1.server.status == PAUSE;
  }

  lemma RunOne(c: Config, s: State, a: Action)
    requires Shaped(c, s.server)
    ensures Run(c, s, [a]) == Step(c, s, a)
  {
    assert Run(c, Step(c, s, a), [a][1..]) == Step(c, s, a);
  }

  lemma RunThree(c: Config, s: State, x: Action, y: Action, z: Action)
    requires Shaped(c, s.server)
    ensures Run(c, s, [x, y, z]) == Step(c, Step(c, Step(c, s, x), y), z)
  {
    RunOne(c, s, x);
    RunOne(c, Step(c, s, x), y);
    RunOne(c, Step(c, Step(c, s, x), y), z);
    RunSplit(c, s, [x], [y]);
    RunSplit(c, s, [x] + [y], [z]);
    assert [x] + [y] + [z] == [x, y, z];
  }

  lemma {:induction false} RunSplit(c: Config, s: State, a: seq<Action>, b: seq<Action>)
    requires Shaped(c, s.server)
    ensures Run(c, s, a + b) == Run(c, Run(c, s, a), b)
    decreases |a|
  {
    if a == [] {
      assert a + b == b;
    } else {
      assert (a + b)[1..] == a[1..] + b;
      RunSplit(c, Step(c, s, a[0]), a[1..], b);
    }
  }

  // ---------- waiting ----------

  /** The sender sleeps although it could go on, and nobody is about to notify it. */
  ghost predicate Stuck(s: Server) {
    s.sender.Asleep? && s.status != PAUSE && forall k :: 0 <= k < |s.controllers| ==> !s.controllers[k].Notifying?
  }

  /** Only a notification that came between the test of the predicate and the falling asleep
      can leave the sender stuck.
   */
  lemma StuckOnlyIfLost(c: Config, schedule: seq<Action>)
    requires c.Valid() && Stuck(Run(c, Init(c), schedule).server)
    ensures Run(c, Init(c), schedule).server.lost
  {
    InitInv(c);
    RunInv(c, Init(c), schedule);
  }

  /** Stuck for good: no control is left that could notify. */
  ghost predicate Hopeless(s: Server) {
    s.sender.Asleep? && s.status != PAUSE && forall k :: 0 <= k < |s.controllers| ==> s.controllers[k].Over?
  }

  /** Short of a spurious wakeup nothing ever happens to such a sender. */
  lemma {:induction false} SleepsOn(c: Config, s: State, schedule: seq<Action>)
    requires Shaped(c, s.server) && Hopeless(s.server) && SpuriousWakeup !in schedule
    ensures Run(c, s, schedule).server.sender == s.server.sender && Hopeless(Run(c, s, schedule).server)
    decreases |schedule|
  {
    if schedule != [] {
      assert schedule[0] in schedule;
      SleepsOn(c, Step(c, s, schedule[0]), schedule[1..]);
    }
  }

  /** A control handled while the sender is between test and sleep: whatever it notifies is
      lost. It takes effect unless the status is already past changing.
   */
  lemma HandledTooEarly(c: Config, s: State, k: nat) returns (schedule: seq<Action>)
    requires Shaped(c, s.server) && s.server.sender.Blocking? && k < |c.controls| && s.server.controllers[k].Queued?
    ensures var s' := Run(c, s, schedule).server;
            && s'.sender == s.server.sender && s'.controllers == s.server.controllers[k := Over]
            && s'.status == if s.server.status == PAUSE || s.server.status == DOING then c.controls[k].Target() else s.server.status
  {
    var a := Control(k);
    RunThree(c, s, a, a, a);
    var three := Step(c, Step(c, Step(c, s, a), a), a);
    RunOne(c, three, a);
    RunSplit(c, s, [a, a, a], [a]);
    schedule := [a, a, a] + [a];
    assert Step(c, three, a).server.controllers == s.server.controllers[k := Over];
  }

  /** The first n controls but r, one after the other. */
  lemma {:induction false} AllTooEarly(c: Config, s: State, p: nat, r: nat, n: nat) returns (schedule: seq<Action>)
    requires Shaped(c, s.server) && s.server.sender.Blocking? && s.server.status == PAUSE
    requires p < |c.controls| && r < |c.controls| && n <= |c.controls|
    requires forall k :: 0 <= k < |c.controls| ==> s.server.controllers[k] == if k == p then Over else Queued
    ensures var s' := Run(c, s, schedule).server;
            && s'.sender == s.server.sender && (s'.status == PAUSE || s'.status == DOING || s'.status == CLOSE)
            && |s'.controllers| == |c.controls|
            && forall k :: 0 <= k < |c.controls| ==>
                 s'.controllers[k] == if k == p || (k < n && k != r) then Over else Queued
  {
    if n == 0 {
      schedule := [];
    } else {
      var before := AllTooEarly(c, s, p, r, n - 1);
      if n - 1 == p || n - 1 == r {
        schedule := before;
      } else {
        var next := HandledTooEarly(c, Run(c, s, before), n - 1);
        RunSplit(c, s, before, next);
        schedule := before + next;
      }
    }
  }

  /** The sender tests its predicate while paused by p and is not yet asleep. */
  lemma AboutToSleep(c: Config, p: nat) returns (schedule: seq<Action>)
    requires c.Valid() && p < |c.controls| && c.controls[p] == Pause
    ensures var s := Run(c, Init(c), schedule).server;
            s.sender == Blocking(0) && s.status == PAUSE && s.controllers == Init(c).server.controllers[p := Over]
  {
    var first, second := [Send, Control(p), Control(p)], [Control(p), Send, Send];
    var s0 := Init(c);
    var s1 := Step(c, Step(c, Step(c, s0, Send), Control(p)), Control(p));
    var s2 := Step(c, Step(c, Step(c, s1, Control(p)), Send), Send);
    assert s1.server.sender == At(0) && s1.server.status == DOING && s1.server.controllers == s0.server.controllers[p := Setting];
    assert s2.server.sender == Blocking(0) && s2.server.status == PAUSE && s2.server.controllers == s0.server.controllers[p := Over];
    RunThree(c, s0, Send, Control(p), Control(p));
    RunThree(c, s1, Control(p), Send, Send);
    RunSplit(c, s0, first, second);
    schedule := first + second;
  }

  /** Such notifications do get lost: with a PAUSE and any other control there is a run that
      handles every control and leaves the sender asleep for good, though not paused.
   */
  lemma WakeupLost(c: Config, p: nat, r: nat) returns (schedule: seq<Action>)
    requires c.Valid() && p < |c.controls| && r < |c.controls| && c.controls[p] == Pause && c.controls[r] != Pause
    ensures Hopeless(Run(c, Init(c), schedule).server)
  {
    var first := AboutToSleep(c, p);
    var s1 := Run(c, Init(c), first);
    var others := AllTooEarly(c, s1, p, r, |c.controls|);
    var s2 := Run(c, s1, others);
    var last := HandledTooEarly(c, s2, r);
    var s3 := Run(c, s2, last);
    RunOne(c, s3, Send);
    RunSplit(c, Init(c), first, others);
    RunSplit(c, Init(c), first + others, last);
    RunSplit(c, Init(c), first + others + last, [Send]);
    schedule := first + others + last + [Send];
  }

  /** Without a PAUSE nothing waits; with nothing but PAUSE whoever waits is paused. */
  ghost predicate CannotBeStuck(c: Config, s: Server) {
    && (Pause !in c.controls ==> s.status != PAUSE && !s.sender.Waiting())
    && (Resume !in c.controls && Cancel !in c.controls && s.sender.Waiting() ==> s.status == PAUSE)
  }

  lemma CannotBeStuckStep(c: Config, s: State, a: Action)
    requires Shaped(c, s.server) && CannotBeStuck(c, s.server)
    ensures CannotBeStuck(c, Step(c, s, a).server)
  {
    if a.Control? && a.k < |c.controls| {
      assert c.controls[a.k] in c.controls;
    }
  }

  lemma {:induction false} CannotBeStuckRun(c: Config, s: State, schedule: seq<Action>)
    requires Shaped(c, s.server) && CannotBeStuck(c, s.server)
    ensures CannotBeStuck(c, Run(c, s, schedule).server)
    decreases |schedule|
  {
    if schedule != [] {
      CannotBeStuckStep(c, s, schedule[0]);
      CannotBeStuckRun(c, Step(c, s, schedule[0]), schedule[1..]);
    }
  }

  ghost predicate StuckAfter(c: Config, schedule: seq<Action>)
    requires c.Valid()
  {
    Stuck(Run(c, Init(c), schedule).server)
  }

  ghost predicate HopelessAfter(c: Config, schedule: seq<Action>)
    requires c.Valid()
  {
    Hopeless(Run(c, Init(c), schedule).server)
  }

  /** A download that has started can fall asleep, and for good, exactly if its client sends a
      PAUSE and also a RESUME or a CANCEL. (One that has not started does not sleep: NotStartedIff.)
   */
  lemma StuckIff(c: Config)
    requires c.Valid()
    ensures (exists schedule :: StuckAfter(c, schedule)) <==> Pause in c.controls && (Resume in c.controls || Cancel in c.controls)
    ensures (exists schedule :: HopelessAfter(c, schedule)) <==> Pause in c.controls && (Resume in c.controls || Cancel in c.controls)
  {
    if Pause in c.controls && (Resume in c.controls || Cancel in c.controls) {
      var p :| 0 <= p < |c.controls| && c.controls[p] == Pause;
      var r :| 0 <= r < |c.controls| && c.controls[r] != Pause;
      var schedule := WakeupLost(c, p, r);
      assert HopelessAfter(c, schedule) && StuckAfter(c, schedule);
    } else {
      forall schedule ensures !StuckAfter(c, schedule) && !HopelessAfter(c, schedule) {
        CannotBeStuckRun(c, Init(c), schedule);
      }
    }
  }

  // ---------- the reply that starts a download ----------

  /** The reply to an accepted request. It announces eight bytes more than its message has,
      since the length of the size is counted twice.
   */
  function GetsReply(status: uint32, size: uint64, hash: seq<byte>): (p: Pdu)
    requires |hash| <= 100
    ensures p.Respond?
  {
    var msg := Network(size, 8) + hash;
    Respond(Header(RESPOND_TYPE, RESPOND_BODY_BASE_LEN + 8 + |msg|, 0, 0), GETS, status, 0, 8 + |msg|, msg)
  }

  /** What is copied for a message that is too short: it and what lies behind it in memory. */
  function WithMemoryBehind(p: Pdu, behind: seq<byte>): Pdu
    requires p.Respond?
  {
    Respond(p.header, p.code, p.status, p.msgAmount, p.msgLen, p.msg + behind)
  }

  /** The bytes before the first zero, as a string is read from memory. */
  function CString(s: seq<byte>): seq<byte> {
    if s == [] || s[0] == 0 then [] else [s[0]] + CString(s[1..])
  }

  lemma {:induction false} CStringEnds(hash: seq<byte>, behind: seq<byte>)
    requires 0 !in hash && behind != [] && behind[0] == 0
    ensures CString(hash + behind) == hash
    decreases |hash|
  {
    if hash != [] {
      assert hash[0] in hash && (hash + behind)[1..] == hash[1..] + behind;
      CStringEnds(hash[1..], behind);
    } else {
      assert hash + behind == behind;
    }
  }

  /** A whole response arrives as it was sent. */
  lemma RespondArrives(p: Pdu, s: seq<byte>)
    requires p.Respond? && Check(p) == Written && |p.msg| == p.msgLen && |s| == POOL_BUFFER_SIZE && Layout(p, s)
    ensures Parse(RESPOND_TYPE, s, p.FrameLen()) == Ok(p)
  {
    RoundTrip(p, s);
    ReceivedUnchanged(p);
  }

  lemma SizeAndHash(size: uint64, hash: seq<byte>, behind: seq<byte>)
    requires 0 !in hash && behind != [] && behind[0] == 0
    ensures var msg := Network(size, 8) + hash + behind; Value(msg[..8]) == size && CString(msg[8..]) == hash
  {
    var msg := Network(size, 8) + hash + behind;
    RangeConstants();
    NetworkRoundTrip(size, 8);
    assert msg[..8] == Network(size, 8) && msg[8..] == hash + behind;
    CStringEnds(hash, behind);
  }

  /** Serializing the reply reads past its message, yet the client reads the size and the hash
      right, whatever lies there, as long as the first byte is the zero that ends a string.
   */
  lemma GetsReplyRead(status: uint32, size: uint64, hash: seq<byte>, behind: seq<byte>, s: seq<byte>)
    requires |hash| <= 100 && 0 !in hash && |behind| == 8 && behind[0] == 0
    requires |s| == POOL_BUFFER_SIZE && Layout(WithMemoryBehind(GetsReply(status, size, hash), behind), s)
    ensures Check(GetsReply(status, size, hash)) == Written && !GetsReply(status, size, hash).HasPayload()
    ensures var p := WithMemoryBehind(GetsReply(status, size, hash), behind);
            && Parse(RESPOND_TYPE, s, p.FrameLen()) == Ok(p)
            && Value(p.msg[..8]) == size && CString(p.msg[8..]) == hash
  {
    RespondArrives(WithMemoryBehind(GetsReply(status, size, hash), behind), s);
    SizeAndHash(size, hash, behind);
  }
}
