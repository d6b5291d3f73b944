/** The wire format shared by client and server: the PDU kinds the two exchange, the
    place of every field in a frame, and what a frame means to its receiver.
 */
module Wire {
  import opened Bytes

  const POOL_BUFFER_SIZE := 8192
  const HEADER_LEN := 8

  const PDU_TYPE := 1
  const RESPOND_TYPE := 2
  const TRAN_TYPE := 3
  const TRANDATA_TYPE := 4
  const TRANFINISH_TYPE := 5
  const TRANCONTROL_TYPE := 6

  const PDU_BODY_BASE_LEN := 152
  const RESPOND_BODY_BASE_LEN := 16
  const TRAN_BODY_LEN := 268
  const TRANDATA_BODY_BASE_LEN := 32
  const TRANFINISH_BODY_LEN := 112
  const TRANCONTROL_BODY_BASE_LEN := 12

  // operation codes
  const SIGNIN := 1
  const SIGNUP := 2
  const PUTS := 3
  const PUTS_DATA := 4
  const PUTS_FINISH := 5
  const GETS := 6
  const GETS_DATA := 7
  const GETS_FINISH := 8
  const GETS_CONTROL := 9
  const CD := 10
  const MAKEDIR := 11
  const DELETEFILE := 12
  const PUTSCONTINUE := 14

  // fixed-size character fields
  type Chars20 = s: seq<byte> | |s| == 20 witness seq(20, _ => 0)
  type Chars100 = s: seq<byte> | |s| == 100 witness seq(100, _ => 0)
  type Chars200 = s: seq<byte> | |s| == 200 witness seq(200, _ => 0)

  datatype Header = Header(kind: uint16, bodyLen: uint32, version: byte, reserved: byte)

  datatype Pdu =
    | Short(header: Header, code: uint32, user: Chars20, pwd: Chars20, fileName: Chars100,
            msgLen: uint32, field: Chars200)
    | Respond(header: Header, code: uint32, status: uint32, msgAmount: uint32, msgLen: uint32, msg: seq<byte>)
    | Tran(header: Header, code: uint32, user: Chars20, pwd: Chars20, fileName: Chars100, fileMd5: Chars100,
           fileSize: uint64, sendedSize: uint64, parentDirId: uint64)
    | TranData(header: Header, code: uint32, status: uint32, fileOffset: uint64, chunkSize: uint32,
               totalChunks: uint32, chunkIndex: uint32, checkSum: uint32, data: seq<byte>)
    | TranFinish(header: Header, code: uint32, fileSize: uint64, fileMd5: Chars100)
    | TranControl(header: Header, code: uint32, action: uint32, msgLen: uint32, msg: seq<byte>)
  {
    /** Header and body: the number of bytes that are sent. */
    function FrameLen(): nat {
      HEADER_LEN + header.bodyLen
    }

    function KindTag(): uint16 {
      match this
      case Short(_, _, _, _, _, _, _) => PDU_TYPE
      case Respond(_, _, _, _, _, _) => RESPOND_TYPE
      case Tran(_, _, _, _, _, _, _, _, _) => TRAN_TYPE
      case TranData(_, _, _, _, _, _, _, _, _) => TRANDATA_TYPE
      case TranFinish(_, _, _, _) => TRANFINISH_TYPE
      case TranControl(_, _, _, _, _) => TRANCONTROL_TYPE
    }

    /** The body length the serializer insists on. */
    function DueBodyLen(): nat {
      match this
      case Short(_, _, _, _, _, n, _) => PDU_BODY_BASE_LEN + n
      case Respond(_, _, _, _, n, _) => RESPOND_BODY_BASE_LEN + n
      case Tran(_, _, _, _, _, _, _, _, _) => TRAN_BODY_LEN
      case TranData(_, _, _, _, n, _, _, _, _) => TRANDATA_BODY_BASE_LEN + n
      case TranFinish(_, _, _, _) => TRANFINISH_BODY_LEN
      case TranControl(_, _, _, n, _) => TRANCONTROL_BODY_BASE_LEN + n
    }

    /** The announced message is there to be copied. */
    predicate HasPayload() {
      match this
      case Short(_, _, _, _, _, n, field) => n <= |field|
      case Respond(_, _, _, _, n, msg) => n <= |msg|
      case TranData(_, _, _, _, n, _, _, _, data) => n <= |data|
      case TranControl(_, _, _, n, msg) => n <= |msg|
      case _ => true
    }

    /** What the receiver gets: the announced part of the payload and nothing behind it. */
    function Received(): Pdu
      requires HasPayload()
    {
      match this
      case Short(_, _, _, _, _, n, _) => this.(field := this.field[..n] + Zeros(200 - n))
      case Respond(h, c, st, amount, n, msg) => Pdu.Respond(h, c, st, amount, n, msg[..n])
      case TranData(_, _, _, _, n, _, _, _, _) => this.(data := this.data[..n])
      case TranControl(h, c, act, n, msg) => Pdu.TranControl(h, c, act, n, msg[..n])
      case _ => this
    }

    /** Nothing but the announced part of the payload is set. */
    predicate Tidy() {
      match this
      case Short(_, _, _, _, _, n, field) =>
        n <= |field| && forall i :: n <= i < |field| ==> field[i] == 0
      case Respond(_, _, _, _, n, msg) => n == |msg|
      case TranData(_, _, _, _, n, _, _, _, data) => n == |data|
      case TranControl(_, _, _, n, msg) => n == |msg|
      case _ => true
    }
  }

  function Zeros(n: nat): (s: seq<byte>)
    ensures |s| == n
  {
    seq(n, _ => 0)
  }

  datatype SerializeStatus = Written | BufferTooSmall | WrongType | WrongBodyLen

  /** The checks `serialize` makes, in its order; the last three are thrown as errors. */
  function Check(p: Pdu): SerializeStatus {
    if p.FrameLen() > POOL_BUFFER_SIZE then BufferTooSmall
    else if p.header.kind != p.KindTag() then WrongType
    else if p.header.bodyLen != p.DueBodyLen() then WrongBodyLen
    else Written
  }

  /** The size comes first, then the kind, then the length of the body. */
  lemma CheckIff(p: Pdu)
    ensures var fits, typed := 8 + p.header.bodyLen <= 8192, p.header.kind == p.KindTag();
            var sized := p.header.bodyLen == match p
                         case Short(_, _, _, _, _, n, _) => 3 * 4 + 140 + n
                         case Respond(_, _, _, _, n, _) => 4 * 4 + n
                         case Tran(_, _, _, _, _, _, _, _, _) => 4 + 3 * 8 + 240
                         case TranData(_, _, _, _, n, _, _, _, _) => 6 * 4 + 8 + n
                         case TranFinish(_, _, _, _) => 4 + 8 + 100
                         case TranControl(_, _, _, n, _) => 3 * 4 + n;
            && (Check(p) == Written <==> fits && typed && sized)
            && (Check(p) == BufferTooSmall <==> !fits)
            && (Check(p) == WrongType <==> fits && !typed)
            && (Check(p) == WrongBodyLen <==> fits && typed && !sized)
  {
  }

  // ---------- the table of field positions ----------

  /** The bytes d stand in s from position off on. */
  predicate At(s: seq<byte>, off: nat, d: seq<byte>) {
    off + |d| <= |s| && s[off..off + |d|] == d
  }

  predicate HeaderAt(h: Header, s: seq<byte>) {
    && At(s, 0, Network(h.kind, 2))
    && At(s, 2, Network(h.bodyLen, 4))
    && At(s, 6, [h.version])
    && At(s, 7, [h.reserved])
  }

  /** s begins with the frame of p. Between the last field of a short PDU and the end of
      its body, four bytes more than the fields occupy, any bytes may stand.
   */
  predicate Layout(p: Pdu, s: seq<byte>) {
    && |s| >= p.FrameLen()
    && HeaderAt(p.header, s)
    && At(s, 8, Network(p.code, 4))
    && match p {
         case Short(_, _, user, pwd, fileName, msgLen, field) =>
           && At(s, 12, user)
           && At(s, 32, pwd)
           && At(s, 52, fileName)
           && At(s, 152, Network(msgLen, 4))
           && (p.HasPayload() ==> At(s, 156, field[..msgLen]))
         case Respond(_, _, status, msgAmount, msgLen, msg) =>
           && At(s, 12, Network(status, 4))
           && At(s, 16, Network(msgAmount, 4))
           && At(s, 20, Network(msgLen, 4))
           && (p.HasPayload() ==> At(s, 24, msg[..msgLen]))
         case Tran(_, _, user, pwd, fileName, fileMd5, fileSize, sendedSize, parentDirId) =>
           && At(s, 12, user)
           && At(s, 32, pwd)
           && At(s, 52, fileName)
           && At(s, 152, fileMd5)
           && At(s, 252, Network(fileSize, 8))
           && At(s, 260, Network(sendedSize, 8))
           && At(s, 268, Network(parentDirId, 8))
         case TranData(_, _, status, fileOffset, chunkSize, totalChunks, chunkIndex, checkSum, data) =>
           && At(s, 12, Network(status, 4))
           && At(s, 16, Network(fileOffset, 8))
           && At(s, 24, Network(chunkSize, 4))
           && At(s, 28, Network(totalChunks, 4))
           && At(s, 32, Network(chunkIndex, 4))
           && At(s, 36, Network(checkSum, 4))
           && (p.HasPayload() ==> At(s, 40, data[..chunkSize]))
         case TranFinish(_, _, fileSize, fileMd5) =>
           && At(s, 12, Network(fileSize, 8))
           && At(s, 20, fileMd5)
         case TranControl(_, _, action, msgLen, msg) =>
           && At(s, 12, Network(action, 4))
           && At(s, 16, Network(msgLen, 4))
           && (p.HasPayload() ==> At(s, 20, msg[..msgLen]))
       }
  }

  // ---------- the meaning of a received buffer ----------

  /** Overrun: the announced message does not fit the field, or reaches past the buffer. The
      code does not look: it copies past the field, or reads past the buffer, and nothing is
      said of what follows.
   */
  datatype Parsed = Ok(pdu: Pdu) | Rejected | Overrun

  /** The integers of two, four and eight bytes at an offset, most significant byte first. */
  function Num2(s: seq<byte>, off: nat): uint16
    requires off + 2 <= |s|
  {
    s[off] as int * 0x100 + s[off + 1] as int
  }

  function Num4(s: seq<byte>, off: nat): uint32
    requires off + 4 <= |s|
  {
    Num2(s, off) * 0x1_0000 + Num2(s, off + 2)
  }

  function Num8(s: seq<byte>, off: nat): uint64
    requires off + 8 <= |s|
  {
    Num4(s, off) * 0x1_0000_0000 + Num4(s, off + 4)
  }

  function HeaderOf(s: seq<byte>): Header
    requires |s| >= HEADER_LEN
  {
    Header(Num2(s, 0), Num4(s, 2), s[6], s[7])
  }

  /** What the deserializer of the given kind makes of a pool buffer whose first len bytes
      are a frame; the bytes behind the frame are whatever the pool left there.
   */
  function Parse(kind: uint16, s: seq<byte>, len: nat): Parsed
    requires |s| == POOL_BUFFER_SIZE && len <= |s|
    requires PDU_TYPE <= kind <= TRANCONTROL_TYPE
  {
    if len < HEADER_LEN then Rejected else
    var h := HeaderOf(s);
    if h.kind != kind || len < HEADER_LEN + h.bodyLen then Rejected else
    var code := Num4(s, 8);
    if kind == PDU_TYPE then
      var n := Num4(s, 152);
      if n > 200 then Overrun
      else Ok(Short(h, code, s[12..32], s[32..52], s[52..152], n, s[156..156 + n] + Zeros(200 - n)))
    else if kind == RESPOND_TYPE then
      var n := Num4(s, 20);
      if 24 + n > |s| then Overrun
      else Ok(Respond(h, code, Num4(s, 12), Num4(s, 16), n, s[24..24 + n]))
    else if kind == TRAN_TYPE then
      Ok(Tran(h, code, s[12..32], s[32..52], s[52..152], s[152..252], Num8(s, 252), Num8(s, 260), Num8(s, 268)))
    else if kind == TRANDATA_TYPE then
      var n := Num4(s, 24);
      if h.bodyLen != TRANDATA_BODY_BASE_LEN + n then Rejected
      else Ok(TranData(h, code, Num4(s, 12), Num8(s, 16), n, Num4(s, 28), Num4(s, 32), Num4(s, 36), s[40..40 + n]))
    else if kind == TRANFINISH_TYPE then
      Ok(TranFinish(h, code, Num8(s, 12), s[20..120]))
    else
      var n := Num4(s, 16);
      if 20 + n > |s| then Overrun
      else Ok(TranControl(h, code, Num4(s, 12), n, s[20..20 + n]))
  }

  /** Where the announced length of a kind with a message stands, and how long it may be. */
  function CountAt(kind: uint16): nat
    requires kind == PDU_TYPE || kind == RESPOND_TYPE || kind == TRANCONTROL_TYPE
  {
    if kind == PDU_TYPE then 152 else if kind == RESPOND_TYPE then 20 else 16
  }

  function CountLimit(kind: uint16): nat
    requires kind == PDU_TYPE || kind == RESPOND_TYPE || kind == TRANCONTROL_TYPE
  {
    if kind == PDU_TYPE then 200 else if kind == RESPOND_TYPE then POOL_BUFFER_SIZE - 24 else POOL_BUFFER_SIZE - 20
  }

  predicate HasMessage(kind: uint16) {
    kind == PDU_TYPE || kind == RESPOND_TYPE || kind == TRANCONTROL_TYPE
  }

  // ---------- laws ----------

  /** Of what passes the other checks, exactly these frames overrun; the other kinds never do. */
  lemma OverrunIff(kind: uint16, s: seq<byte>, len: nat)
    requires |s| == POOL_BUFFER_SIZE && len <= |s| && PDU_TYPE <= kind <= TRANCONTROL_TYPE
    ensures Parse(kind, s, len).Overrun?
       <==> HEADER_LEN <= len && HeaderOf(s).kind == kind && HEADER_LEN + HeaderOf(s).bodyLen <= len
            && HasMessage(kind) && Num4(s, CountAt(kind)) > CountLimit(kind)
  {
  }

  lemma Num4Bytes(s: seq<byte>, off: nat)
    requires off + 4 <= |s|
    ensures Num4(s, off) == s[off] as int * 0x100_0000 + s[off + 1] as int * 0x1_0000 + s[off + 2] as int * 0x100 + s[off + 3]
  {
  }

  /** A frame in a pool buffer whose other bytes are the largest. */
  function Padded(f: seq<byte>): seq<byte>
    requires |f| <= POOL_BUFFER_SIZE
  {
    f + seq(POOL_BUFFER_SIZE - |f|, _ => 255)
  }

  lemma PaddedIsWorst(f: seq<byte>, s: seq<byte>, off: nat)
    requires |f| <= POOL_BUFFER_SIZE == |s| && f <= s && off + 4 <= |s|
    ensures Num4(s, off) <= Num4(Padded(f), off)
  {
    var p := Padded(f);
    Num4Bytes(s, off);
    Num4Bytes(p, off);
    forall k | 0 <= k < |s| ensures s[k] <= p[k] {
      if k < |f| { assert s[k] == f[k]; }
    }
  }

  lemma Num2IsNetwork(s: seq<byte>, off: nat)
    requires off + 2 <= |s|
    ensures Network(Num2(s, off), 2) == s[off..off + 2]
  {
    assert Network(s[off], 1) == [s[off]];
  }

  lemma Num4IsNetwork(s: seq<byte>, off: nat)
    requires off + 4 <= |s|
    ensures Network(Num4(s, off), 4) == s[off..off + 4]
  {
    RangeConstants();
    var n := 2;
    NetworkSplit(Num2(s, off), Num2(s, off + 2), n, n);
    Num2IsNetwork(s, off);
    Num2IsNetwork(s, off + 2);
    assert s[off..off + 4] == s[off..off + 2] + s[off + 2..off + 4];
  }

  lemma Num8IsNetwork(s: seq<byte>, off: nat)
    requires off + 8 <= |s|
    ensures Network(Num8(s, off), 8) == s[off..off + 8]
  {
    RangeConstants();
    var n := 4;
    NetworkSplit(Num4(s, off), Num4(s, off + 4), n, n);
    Num4IsNetwork(s, off);
    Num4IsNetwork(s, off + 4);
    assert s[off..off + 8] == s[off..off + 4] + s[off + 4..off + 8];
  }

  lemma Num2At(s: seq<byte>, off: nat, x: uint16)
    requires off + 2 <= |s|
    ensures At(s, off, Network(x, 2)) <==> Num2(s, off) == x
  {
    RangeConstants();
    Num2IsNetwork(s, off);
    NetworkRoundTrip(x, 2);
    NetworkRoundTrip(Num2(s, off), 2);
  }

  lemma Num4At(s: seq<byte>, off: nat, x: uint32)
    requires off + 4 <= |s|
    ensures At(s, off, Network(x, 4)) <==> Num4(s, off) == x
  {
    RangeConstants();
    Num4IsNetwork(s, off);
    NetworkRoundTrip(x, 4);
    NetworkRoundTrip(Num4(s, off), 4);
  }

  lemma Num8At(s: seq<byte>, off: nat, x: uint64)
    requires off + 8 <= |s|
    ensures At(s, off, Network(x, 8)) <==> Num8(s, off) == x
  {
    RangeConstants();
    Num8IsNetwork(s, off);
    NetworkRoundTrip(x, 8);
    NetworkRoundTrip(Num8(s, off), 8);
  }

  lemma HeaderRoundTrip(h: Header, s: seq<byte>)
    requires |s| >= HEADER_LEN
    ensures HeaderAt(h, s) <==> HeaderOf(s) == h
  {
    Num2At(s, 0, h.kind);
    Num4At(s, 2, h.bodyLen);
    assert s[6..7] == [s[6]] && s[7..8] == [s[7]];
  }

  lemma RoundTripShort(p: Pdu, s: seq<byte>)
    requires p.Short? && Check(p) == Written && p.HasPayload()
    requires |s| == POOL_BUFFER_SIZE && Layout(p, s)
    ensures Parse(PDU_TYPE, s, p.FrameLen()) == Ok(p.Received())
  {
    HeaderRoundTrip(p.header, s);
    Num4At(s, 8, p.code);
    Num4At(s, 152, p.msgLen);
  }

  lemma RoundTripTran(p: Pdu, s: seq<byte>)
    requires p.Tran? && Check(p) == Written && |s| == POOL_BUFFER_SIZE && Layout(p, s)
    ensures Parse(TRAN_TYPE, s, p.FrameLen()) == Ok(p)
  {
    HeaderRoundTrip(p.header, s);
    Num4At(s, 8, p.code);
    Num8At(s, 252, p.fileSize);
    Num8At(s, 260, p.sendedSize);
    Num8At(s, 268, p.parentDirId);
  }

  lemma RoundTripTranData(p: Pdu, s: seq<byte>)
    requires p.TranData? && Check(p) == Written && p.HasPayload()
    requires |s| == POOL_BUFFER_SIZE && Layout(p, s)
    ensures Parse(TRANDATA_TYPE, s, p.FrameLen()) == Ok(p.Received())
  {
    HeaderRoundTrip(p.header, s);
    Num4At(s, 8, p.code);
    Num4At(s, 12, p.status);
    Num8At(s, 16, p.fileOffset);
    Num4At(s, 24, p.chunkSize);
    Num4At(s, 28, p.totalChunks);
    Num4At(s, 32, p.chunkIndex);
    Num4At(s, 36, p.checkSum);
  }

  lemma RoundTripMessage(p: Pdu, s: seq<byte>)
    requires (p.Respond? || p.TranControl?) && Check(p) == Written && p.HasPayload()
    requires |s| == POOL_BUFFER_SIZE && Layout(p, s)
    ensures Parse(p.KindTag(), s, p.FrameLen()) == Ok(p.Received())
  {
    HeaderRoundTrip(p.header, s);
    Num4At(s, 8, p.code);
    match p
    case Respond(_, _, status, msgAmount, msgLen, _) =>
      Num4At(s, 12, status);
      Num4At(s, 16, msgAmount);
      Num4At(s, 20, msgLen);
    case TranControl(_, _, action, msgLen, _) =>
      Num4At(s, 12, action);
      Num4At(s, 16, msgLen);
  }

  /** Any buffer that starts with the frame of p parses to what p's receiver should get. */
  lemma RoundTrip(p: Pdu, s: seq<byte>)
    requires Check(p) == Written && p.HasPayload()
    requires |s| == POOL_BUFFER_SIZE && Layout(p, s)
    ensures Parse(p.KindTag(), s, p.FrameLen()) == Ok(p.Received())
  {
    match p
    case Short(_, _, _, _, _, _, _) => RoundTripShort(p, s);
    case Respond(_, _, _, _, _, _) => RoundTripMessage(p, s);
    case Tran(_, _, _, _, _, _, _, _, _) => RoundTripTran(p, s);
    case TranData(_, _, _, _, _, _, _, _, _) => RoundTripTranData(p, s);
    case TranFinish(_, _, fileSize, _) =>
      HeaderRoundTrip(p.header, s);
      Num4At(s, 8, p.code);
      Num8At(s, 12, fileSize);
    case TranControl(_, _, _, _, _) => RoundTripMessage(p, s);
  }

  /** The receiver gets p itself exactly when p has nothing behind the announced payload. */
  lemma ReceivedUnchanged(p: Pdu)
    requires p.HasPayload()
    ensures p.Received() == p <==> p.Tidy()
  {
    match p
    case Short(_, _, _, _, _, n, field) =>
      var got := field[..n] + Zeros(200 - n);
      assert forall i :: 0 <= i < n ==> got[i] == field[i];
      assert forall i :: n <= i < 200 ==> got[i] == 0;
      if p.Tidy() { assert got == field; }
    case Respond(_, _, _, _, n, msg) =>
    case TranData(_, _, _, _, n, _, _, _, data) =>
    case TranControl(_, _, _, n, msg) =>
    case Tran(_, _, _, _, _, _, _, _, _) =>
    case TranFinish(_, _, _, _) =>
  }

  /** An accepted data frame is the frame of the PDU it parses to, so `serialize` takes that
      PDU: the body length was compared with the chunk size on the way in.
   */
  lemma AcceptedDataFrame(s: seq<byte>, len: nat)
    requires |s| == POOL_BUFFER_SIZE && len <= |s|
    requires Parse(TRANDATA_TYPE, s, len).Ok?
    ensures var p := Parse(TRANDATA_TYPE, s, len).pdu;
            p.TranData? && Check(p) == Written && p.Tidy() && Layout(p, s)
  {
    var p := Parse(TRANDATA_TYPE, s, len).pdu;
    HeaderRoundTrip(p.header, s);
    Num4At(s, 8, p.code);
    Num4At(s, 12, p.status);
    Num8At(s, 16, p.fileOffset);
    Num4At(s, 24, p.chunkSize);
    Num4At(s, 28, p.totalChunks);
    Num4At(s, 32, p.chunkIndex);
    Num4At(s, 36, p.checkSum);
    assert p.data[..p.chunkSize] == p.data;
  }

  /** A data frame has no slack: its bytes are determined by its PDU. */
  lemma DataFrameBytes(p: Pdu, s: seq<byte>, t: seq<byte>)
    requires p.TranData? && Check(p) == Written && p.HasPayload()
    requires Layout(p, s) && Layout(p, t)
    ensures s[..p.FrameLen()] == t[..p.FrameLen()]
  {
    Pieces(s, p.FrameLen());
    Pieces(t, p.FrameLen());
  }

  lemma Pieces(s: seq<byte>, n: nat)
    requires 40 <= n <= |s|
    ensures s[..n] == s[0..2] + s[2..6] + s[6..7] + s[7..8] + s[8..12] + s[12..16] + s[16..24]
                      + s[24..28] + s[28..32] + s[32..36] + s[36..40] + s[40..n]
  {
  }
}
