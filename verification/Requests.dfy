/** The PDUs the client builds, and which tool of the server gets each of them with what in it. */
module Requests {
  import opened Bytes
  import opened Wire
  import opened Chunks
  import opened Download
  import opened EventLoop
  import opened Options

  /** The number the client sends for a control. */
  function ActionOf(a: ControlAction): uint32 {
    match a
    case Pause => 1
    case Resume => 2
    case Cancel => 3
  }

  /** What the server makes of the number; of others nothing. */
  function Meant(action: uint32): Option<ControlAction> {
    if action == 1 then Some(Pause) else if action == 2 then Some(Resume) else if action == 3 then Some(Cancel) else None
  }

  /** A character field that starts with the bytes, the rest zero. */
  function Field(bytes: seq<byte>, n: nat): (s: seq<byte>)
    requires |bytes| <= n
    ensures |s| == n
  {
    bytes + Zeros(n - |bytes|)
  }

  function ShortPdu(code: uint32, user: Chars20, pwd: Chars20, fileName: Chars100, msg: seq<byte>): Pdu
    requires |msg| <= 200
  {
    Short(Header(PDU_TYPE, PDU_BODY_BASE_LEN + |msg|, 0, 0), code, user, pwd, fileName, |msg|, Field(msg, 200))
  }

  function SignInPdu(user: Chars20, pwd: Chars20): Pdu {
    ShortPdu(SIGNIN, user, pwd, Zeros(100), [])
  }

  function SignUpPdu(user: Chars20, pwd: Chars20): Pdu {
    ShortPdu(SIGNUP, user, pwd, Zeros(100), [])
  }

  function FileListPdu(): Pdu {
    ShortPdu(CD, Zeros(20), Zeros(20), Zeros(100), [])
  }

  /** The folder's id travels as the message. */
  function MakeDirPdu(parent: uint64, name: seq<byte>): Pdu
    requires |name| < 100
  {
    ShortPdu(MAKEDIR, Zeros(20), Zeros(20), Field(name, 100), Network(parent, 8))
  }

  /** The file's id travels in the password field. */
  function DeletePdu(id: uint64, name: seq<byte>): Pdu
    requires |name| < 100
  {
    ShortPdu(DELETEFILE, Zeros(20), Field(Network(id, 8), 20), Field(name, 100), [])
  }

  function UploadPdu(user: Chars20, pwd: Chars20, name: Chars100, md5: Chars100, size: uint64, parent: uint64): Pdu {
    Tran(Header(TRAN_TYPE, TRAN_BODY_LEN, 0, 0), PUTS, user, pwd, name, md5, size, 0, parent)
  }

  /** The file's id travels where an upload has its folder. */
  function DownloadPdu(user: Chars20, pwd: Chars20, name: Chars100, size: uint64, id: uint64): Pdu {
    Tran(Header(TRAN_TYPE, TRAN_BODY_LEN, 0, 0), GETS, user, pwd, name, Zeros(100), size, 0, id)
  }

  /** Sent when the client has opened its file. */
  function StartPdu(): Pdu {
    TranData(Header(TRANDATA_TYPE, TRANDATA_BODY_BASE_LEN, 0, 0), GETS_DATA, 0, 0, 0, 0, 0, 0, [])
  }

  function UploadDonePdu(size: uint64, md5: Chars100): Pdu {
    TranFinish(Header(TRANFINISH_TYPE, TRANFINISH_BODY_LEN, 0, 0), PUTS_FINISH, size, md5)
  }

  /** The verdict travels as the size. */
  function DownloadDonePdu(right: bool): Pdu {
    TranFinish(Header(TRANFINISH_TYPE, TRANFINISH_BODY_LEN, 0, 0), GETS_FINISH, if right then 1 else 0, Zeros(100))
  }

  function ControlPdu(action: uint32): Pdu {
    TranControl(Header(TRANCONTROL_TYPE, TRANCONTROL_BODY_BASE_LEN, 0, 0), GETS_CONTROL, action, 0, [])
  }

  /** The client can send it, and whatever the slack bytes of its frame and the pool leave
      behind it, the server hands this very PDU to the tool.
   */
  ghost predicate Reaches(p: Pdu, tool: Tool) {
    && Sendable(p)
    && forall f, buf :: IsFrame(p, f) && |buf| == POOL_BUFFER_SIZE && f <= buf ==> Outcome(buf, |f|) == Handled(p, tool)
  }

  lemma SentToTool(p: Pdu, tool: Tool)
    requires Sendable(p) && p.Tidy() && GetTool(p) == tool
    ensures Reaches(p, tool)
  {
    ReceivedUnchanged(p);
    forall f, buf | IsFrame(p, f) && |buf| == POOL_BUFFER_SIZE && f <= buf ensures Outcome(buf, |f|) == Handled(p, tool) {
      FrameIsHandled(p, f);
    }
  }

  lemma ShortIsTidy(code: uint32, user: Chars20, pwd: Chars20, fileName: Chars100, msg: seq<byte>)
    requires |msg| <= 200
    ensures var p := ShortPdu(code, user, pwd, fileName, msg); Sendable(p) && p.Tidy()
  {
  }

  lemma SignInArrives(user: Chars20, pwd: Chars20)
    ensures Reaches(SignInPdu(user, pwd), LoginTool) && SignInPdu(user, pwd).user == user && SignInPdu(user, pwd).pwd == pwd
  {
    ShortIsTidy(SIGNIN, user, pwd, Zeros(100), []);
    SentToTool(SignInPdu(user, pwd), LoginTool);
  }

  lemma SignUpArrives(user: Chars20, pwd: Chars20)
    ensures Reaches(SignUpPdu(user, pwd), SignTool) && SignUpPdu(user, pwd).user == user && SignUpPdu(user, pwd).pwd == pwd
  {
    ShortIsTidy(SIGNUP, user, pwd, Zeros(100), []);
    SentToTool(SignUpPdu(user, pwd), SignTool);
  }

  lemma FileListArrives()
    ensures Reaches(FileListPdu(), CdTool)
  {
    ShortIsTidy(CD, Zeros(20), Zeros(20), Zeros(100), []);
    SentToTool(FileListPdu(), CdTool);
  }

  /** The number that ntohll makes of eight bytes the server copies out of a field. */
  function Id(host: Host, field: seq<byte>): nat
    requires |field| >= 8
  {
    NtohllReadsValue(host, field[..8]);
    Htonll(host, FromMemory(host, field[..8]))
  }

  lemma IdArrives(host: Host, id: uint64, n: nat)
    requires n >= 8
    ensures Id(host, Field(Network(id, 8), n)) == id
  {
    assert Field(Network(id, 8), n)[..8] == Network(id, 8);
    NtohllReadsValue(host, Network(id, 8));
    RangeConstants();
    NetworkRoundTrip(id, 8);
  }

  /** The server reads the name and the parent the client gave. */
  lemma MakeDirArrives(host: Host, parent: uint64, name: seq<byte>)
    requires |name| < 100
    ensures var p := MakeDirPdu(parent, name);
            Reaches(p, CreateDirTool) && p.fileName == name + Zeros(100 - |name|) && Id(host, p.field) == parent
  {
    ShortIsTidy(MAKEDIR, Zeros(20), Zeros(20), Field(name, 100), Network(parent, 8));
    SentToTool(MakeDirPdu(parent, name), CreateDirTool);
    IdArrives(host, parent, 200);
  }

  lemma DeleteArrives(host: Host, id: uint64, name: seq<byte>)
    requires |name| < 100
    ensures var p := DeletePdu(id, name);
            Reaches(p, DeleteTool) && p.fileName == name + Zeros(100 - |name|) && Id(host, p.pwd) == id
  {
    ShortIsTidy(DELETEFILE, Zeros(20), Field(Network(id, 8), 20), Field(name, 100), []);
    SentToTool(DeletePdu(id, name), DeleteTool);
    IdArrives(host, id, 20);
  }

  /** An upload: the request, each chunk and the confirmation. */
  lemma UploadArrives(user: Chars20, pwd: Chars20, name: Chars100, md5: Chars100, size: uint64, parent: uint64)
    ensures var p := UploadPdu(user, pwd, name, md5, size, parent);
            && Reaches(p, PutsTool) && p.user == user && p.pwd == pwd && p.fileName == name && p.fileMd5 == md5
            && p.fileSize == size && p.sendedSize == 0 && p.parentDirId == parent
  {
    SentToTool(UploadPdu(user, pwd, name, md5, size, parent), PutsTool);
  }

  lemma ChunkArrives(source: seq<byte>, i: nat)
    requires |source| <= MAX_FILE_SIZE && i < Count(|source|)
    ensures Reaches(ChunkPdu(PUTS_DATA, source, i), PutsDataTool)
  {
    ChunkPduIsSendable(PUTS_DATA, source, i);
    SentToTool(ChunkPdu(PUTS_DATA, source, i), PutsDataTool);
  }

  lemma UploadDoneArrives(size: uint64, md5: Chars100)
    ensures var p := UploadDonePdu(size, md5); Reaches(p, PutsFinishTool) && p.fileSize == size && p.fileMd5 == md5
  {
    SentToTool(UploadDonePdu(size, md5), PutsFinishTool);
  }

  /** A download: the request, the start, a control and the verdict. */
  lemma DownloadArrives(user: Chars20, pwd: Chars20, name: Chars100, size: uint64, id: uint64)
    ensures var p := DownloadPdu(user, pwd, name, size, id);
            Reaches(p, GetsTool) && p.user == user && p.pwd == pwd && p.fileName == name && p.parentDirId == id && p.sendedSize == 0
  {
    SentToTool(DownloadPdu(user, pwd, name, size, id), GetsTool);
  }

  lemma StartArrives()
    ensures Reaches(StartPdu(), GetsDataTool)
  {
    SentToTool(StartPdu(), GetsDataTool);
  }

  lemma ControlArrives(a: ControlAction)
    ensures var p := ControlPdu(ActionOf(a)); Reaches(p, GetsControlTool) && Meant(p.action) == Some(a)
  {
    SentToTool(ControlPdu(ActionOf(a)), GetsControlTool);
  }

  lemma DownloadDoneArrives(right: bool)
    ensures Reaches(DownloadDonePdu(right), GetsFinishTool) && (DownloadDonePdu(right).fileSize == 1 <==> right)
  {
    SentToTool(DownloadDonePdu(right), GetsFinishTool);
  }
}
