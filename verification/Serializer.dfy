/** Writing PDUs into a pooled buffer through a moving position, and reading them back.
    Client and server each carry a copy of this code; either may run on a host of either
    byte order.
 */
module Serializer {
  import opened Bytes
  import opened Wire

  /** `memcpy` to ptr; returns the advanced position. Everything before ptr stays. */
  method WriteData(buf: array<byte>, ptr: nat, data: seq<byte>) returns (next: nat)
    requires ptr + |data| <= buf.Length
    modifies buf
    ensures next == ptr + |data|
    ensures At(buf[..], ptr, data)
    ensures forall off: nat, d :: off + |d| <= ptr && At(old(buf[..]), off, d) ==> At(buf[..], off, d)
  {
    forall i | 0 <= i < |data| {
      buf[ptr + i] := data[i];
    }
    assert buf[..][ptr..ptr + |data|] == data;
    assert buf[..][..ptr] == old(buf[..])[..ptr];
    forall off: nat, d | off + |d| <= ptr && At(old(buf[..]), off, d) ensures At(buf[..], off, d) {
      assert buf[..][off..off + |d|] == buf[..][..ptr][off..off + |d|];
      assert old(buf[..])[off..off + |d|] == old(buf[..])[..ptr][off..off + |d|];
    }
    next := ptr + |data|;
  }

  /** A two- or four-byte field: converted by `htons`/`htonl`, then copied. */
  method WriteField(host: Host, buf: array<byte>, ptr: nat, x: nat, n: nat) returns (next: nat)
    requires x < Range(n) && ptr + n <= buf.Length
    modifies buf
    ensures next == ptr + n
    ensures At(buf[..], ptr, Network(x, n))
    ensures forall off: nat, d :: off + |d| <= ptr && At(old(buf[..]), off, d) ==> At(buf[..], off, d)
  {
    var converted := Hton(host, x, n);
    HtonIsNetworkOrder(host, x, n);
    next := WriteData(buf, ptr, Memory(host, converted, n));
  }

  /** An eight-byte field: converted by `htonll`, then copied. */
  method WriteWideField(host: Host, buf: array<byte>, ptr: nat, x: uint64) returns (next: nat)
    requires ptr + 8 <= buf.Length
    modifies buf
    ensures next == ptr + 8
    ensures At(buf[..], ptr, Network(x, 8))
    ensures forall off: nat, d :: off + |d| <= ptr && At(old(buf[..]), off, d) ==> At(buf[..], off, d)
  {
    var converted := Htonll(host, x);
    HtonllIsNetworkOrder(host, x);
    next := WriteData(buf, ptr, Memory(host, converted, 8));
  }

  method WriteHeader(host: Host, buf: array<byte>, h: Header) returns (next: nat)
    requires HEADER_LEN <= buf.Length
    modifies buf
    ensures next == HEADER_LEN
    ensures HeaderAt(h, buf[..])
  {
    RangeConstants();
    next := WriteField(host, buf, 0, h.kind, 2);
    next := WriteField(host, buf, next, h.bodyLen, 4);
    next := WriteData(buf, next, [h.version]);
    next := WriteData(buf, next, [h.reserved]);
  }

  /** The common start of every `serialize`: the checks, then the header and the code. */
  method Begin(host: Host, buf: array<byte>, p: Pdu) returns (status: SerializeStatus, next: nat)
    requires buf.Length == POOL_BUFFER_SIZE
    modifies buf
    ensures status == Check(p)
    ensures status != Written ==> buf[..] == old(buf[..])
    ensures status == Written ==> next == 12 && HeaderAt(p.header, buf[..]) && At(buf[..], 8, Network(p.code, 4))
  {
    next := 0;
    if p.FrameLen() > POOL_BUFFER_SIZE {
      return BufferTooSmall, next;
    }
    if p.header.kind != p.KindTag() {
      return WrongType, next;
    }
    if p.header.bodyLen != p.DueBodyLen() {
      return WrongBodyLen, next;
    }
    RangeConstants();
    next := WriteHeader(host, buf, p.header);
    next := WriteField(host, buf, next, p.code, 4);
    status := Written;
  }

  /** The three fields that name user and file, in short and transfer PDUs alike. */
  method WriteNames(buf: array<byte>, ptr: nat, user: Chars20, pwd: Chars20, fileName: Chars100) returns (next: nat)
    requires ptr + 140 <= buf.Length
    modifies buf
    ensures next == ptr + 140
    ensures At(buf[..], ptr, user) && At(buf[..], ptr + 20, pwd) && At(buf[..], ptr + 40, fileName)
    ensures forall off: nat, d :: off + |d| <= ptr && At(old(buf[..]), off, d) ==> At(buf[..], off, d)
  {
    next := WriteData(buf, ptr, user);
    next := WriteData(buf, next, pwd);
    next := WriteData(buf, next, fileName);
  }

  method SerializeShort(host: Host, buf: array<byte>, p: Pdu) returns (status: SerializeStatus)
    requires p.Short? && p.HasPayload() && buf.Length == POOL_BUFFER_SIZE
    modifies buf
    ensures status == Check(p)
    ensures if status == Written then Layout(p, buf[..]) else buf[..] == old(buf[..])
  {
    var ptr;
    status, ptr := Begin(host, buf, p);
    if status == Written {
      RangeConstants();
      ptr := WriteNames(buf, ptr, p.user, p.pwd, p.fileName);
      ptr := WriteField(host, buf, ptr, p.msgLen, 4);
      if p.msgLen > 0 {
        ptr := WriteData(buf, ptr, p.field[..p.msgLen]);
      }
    }
  }

  method SerializeRespond(host: Host, buf: array<byte>, p: Pdu) returns (status: SerializeStatus)
    requires p.Respond? && p.HasPayload() && buf.Length == POOL_BUFFER_SIZE
    modifies buf
    ensures status == Check(p)
    ensures if status == Written then Layout(p, buf[..]) else buf[..] == old(buf[..])
  {
    var ptr;
    status, ptr := Begin(host, buf, p);
    if status == Written {
      RangeConstants();
      ptr := WriteField(host, buf, ptr, p.status, 4);
      ptr := WriteField(host, buf, ptr, p.msgAmount, 4);
      ptr := WriteField(host, buf, ptr, p.msgLen, 4);
      if p.msgLen > 0 {
        ptr := WriteData(buf, ptr, p.msg[..p.msgLen]);
      }
    }
  }

  method SerializeTran(host: Host, buf: array<byte>, p: Pdu) returns (status: SerializeStatus)
    requires p.Tran? && buf.Length == POOL_BUFFER_SIZE
    modifies buf
    ensures status == Check(p)
    ensures if status == Written then Layout(p, buf[..]) else buf[..] == old(buf[..])
  {
    var ptr;
    status, ptr := Begin(host, buf, p);
    if status == Written {
      ptr := WriteNames(buf, ptr, p.user, p.pwd, p.fileName);
      ptr := WriteData(buf, ptr, p.fileMd5);
      ptr := WriteWideField(host, buf, ptr, p.fileSize);
      ptr := WriteWideField(host, buf, ptr, p.sendedSize);
      ptr := WriteWideField(host, buf, ptr, p.parentDirId);
    }
  }

  /** The chunk is written only when the data holds that many bytes; no precondition. */
  method SerializeTranData(host: Host, buf: array<byte>, p: Pdu) returns (status: SerializeStatus)
    requires p.TranData? && buf.Length == POOL_BUFFER_SIZE
    modifies buf
    ensures status == Check(p)
    ensures if status == Written then Layout(p, buf[..]) else buf[..] == old(buf[..])
  {
    var ptr;
    status, ptr := Begin(host, buf, p);
    if status == Written {
      RangeConstants();
      ptr := WriteField(host, buf, ptr, p.status, 4);
      ptr := WriteWideField(host, buf, ptr, p.fileOffset);
      ptr := WriteField(host, buf, ptr, p.chunkSize, 4);
      ptr := WriteField(host, buf, ptr, p.totalChunks, 4);
      ptr := WriteField(host, buf, ptr, p.chunkIndex, 4);
      ptr := WriteField(host, buf, ptr, p.checkSum, 4);
      if 0 < p.chunkSize <= |p.data| {
        ptr := WriteData(buf, ptr, p.data[..p.chunkSize]);
      }
    }
  }

  method SerializeTranFinish(host: Host, buf: array<byte>, p: Pdu) returns (status: SerializeStatus)
    requires p.TranFinish? && buf.Length == POOL_BUFFER_SIZE
    modifies buf
    ensures status == Check(p)
    ensures if status == Written then Layout(p, buf[..]) else buf[..] == old(buf[..])
  {
    var ptr;
    status, ptr := Begin(host, buf, p);
    if status == Written {
      ptr := WriteWideField(host, buf, ptr, p.fileSize);
      ptr := WriteData(buf, ptr, p.fileMd5);
    }
  }

  method SerializeTranControl(host: Host, buf: array<byte>, p: Pdu) returns (status: SerializeStatus)
    requires p.TranControl? && p.HasPayload() && buf.Length == POOL_BUFFER_SIZE
    modifies buf
    ensures status == Check(p)
    ensures if status == Written then Layout(p, buf[..]) else buf[..] == old(buf[..])
  {
    var ptr;
    status, ptr := Begin(host, buf, p);
    if status == Written {
      RangeConstants();
      ptr := WriteField(host, buf, ptr, p.action, 4);
      ptr := WriteField(host, buf, ptr, p.msgLen, 4);
      if p.msgLen > 0 {
        ptr := WriteData(buf, ptr, p.msg[..p.msgLen]);
      }
    }
  }

  /** The overloads of `serialize` under one name. */
  method Serialize(host: Host, buf: array<byte>, p: Pdu) returns (status: SerializeStatus)
    requires p.HasPayload() && buf.Length == POOL_BUFFER_SIZE
    modifies buf
    ensures status == Check(p)
    ensures if status == Written then Layout(p, buf[..]) else buf[..] == old(buf[..])
  {
    match p
    case Short(_, _, _, _, _, _, _) => status := SerializeShort(host, buf, p);
    case Respond(_, _, _, _, _, _) => status := SerializeRespond(host, buf, p);
    case Tran(_, _, _, _, _, _, _, _, _) => status := SerializeTran(host, buf, p);
    case TranData(_, _, _, _, _, _, _, _, _) => status := SerializeTranData(host, buf, p);
    case TranFinish(_, _, _, _) => status := SerializeTranFinish(host, buf, p);
    case TranControl(_, _, _, _, _) => status := SerializeTranControl(host, buf, p);
  }

  // ---------- deserialization ----------

  /** `memcpy` of n bytes from ptr; returns them and the advanced position. */
  method ReadData(buf: array<byte>, ptr: nat, n: nat) returns (data: seq<byte>, next: nat)
    requires ptr + n <= buf.Length
    ensures next == ptr + n && data == buf[..][ptr..ptr + n]
  {
    data, next := buf[ptr..ptr + n], ptr + n;
  }

  /** A four-byte field: copied into a variable of the host, then `ntohl`. */
  method ReadField(host: Host, buf: array<byte>, ptr: nat) returns (x: uint32, next: nat)
    requires ptr + 4 <= buf.Length
    ensures next == ptr + 4 && x == Num4(buf[..], ptr)
  {
    var raw;
    raw, next := ReadData(buf, ptr, 4);
    NtohReadsValue(host, raw);
    Num4IsNetwork(buf[..], ptr);
    RangeConstants();
    NetworkRoundTrip(Num4(buf[..], ptr), 4);
    x := Hton(host, FromMemory(host, raw), 4);
  }

  method ReadWideField(host: Host, buf: array<byte>, ptr: nat) returns (x: uint64, next: nat)
    requires ptr + 8 <= buf.Length
    ensures next == ptr + 8 && x == Num8(buf[..], ptr)
  {
    var raw;
    raw, next := ReadData(buf, ptr, 8);
    NtohllReadsValue(host, raw);
    Num8IsNetwork(buf[..], ptr);
    RangeConstants();
    NetworkRoundTrip(Num8(buf[..], ptr), 8);
    x := Htonll(host, FromMemory(host, raw));
  }

  method DeserializeHeader(host: Host, buf: array<byte>) returns (h: Header, next: nat)
    requires HEADER_LEN <= buf.Length
    ensures next == HEADER_LEN && h == HeaderOf(buf[..])
  {
    var raw, kind, bodyLen, version, reserved;
    raw, next := ReadData(buf, 0, 2);
    NtohReadsValue(host, raw);
    Num2IsNetwork(buf[..], 0);
    RangeConstants();
    NetworkRoundTrip(Num2(buf[..], 0), 2);
    kind := Hton(host, FromMemory(host, raw), 2);
    bodyLen, next := ReadField(host, buf, next);
    version, next := ReadData(buf, next, 1);
    reserved, next := ReadData(buf, next, 1);
    h := Header(kind, bodyLen, version[0], reserved[0]);
  }

  /** The common start of every `deserialize`: header, kind, completeness, code. */
  method Open(host: Host, buf: array<byte>, len: nat, kind: uint16)
    returns (accepted: bool, h: Header, code: uint32, next: nat)
    requires buf.Length == POOL_BUFFER_SIZE && len <= buf.Length
    ensures accepted <==> len >= HEADER_LEN && HeaderOf(buf[..]).kind == kind
                          && len >= HEADER_LEN + HeaderOf(buf[..]).bodyLen
    ensures accepted ==> h == HeaderOf(buf[..]) && code == Num4(buf[..], 8) && next == 12
  {
    h, code, next := Header(0, 0, 0, 0), 0, 0;
    if len < HEADER_LEN {
      return false, h, code, next;
    }
    h, next := DeserializeHeader(host, buf);
    if h.kind != kind || len < HEADER_LEN + h.bodyLen {
      return false, h, code, next;
    }
    code, next := ReadField(host, buf, next);
    accepted := true;
  }

  /** The source copies the message without looking at its length. Where that leaves the field
      or the buffer the result is Overrun, here and below, and nothing is said of the rest.
   */
  method DeserializeShort(host: Host, buf: array<byte>, len: nat) returns (r: Parsed)
    requires buf.Length == POOL_BUFFER_SIZE && len <= buf.Length
    ensures r == Parse(PDU_TYPE, buf[..], len)
  {
    var accepted, h, code, ptr := Open(host, buf, len, PDU_TYPE);
    if !accepted {
      return Rejected;
    }
    var user, pwd, fileName, msgLen, msg;
    user, ptr := ReadData(buf, ptr, 20);
    pwd, ptr := ReadData(buf, ptr, 20);
    fileName, ptr := ReadData(buf, ptr, 100);
    msgLen, ptr := ReadField(host, buf, ptr);
    if msgLen > 200 {
      return Overrun;
    }
    msg, ptr := ReadData(buf, ptr, msgLen);
    r := Ok(Short(h, code, user, pwd, fileName, msgLen, msg + Zeros(200 - msgLen)));
  }

  method DeserializeRespond(host: Host, buf: array<byte>, len: nat) returns (r: Parsed)
    requires buf.Length == POOL_BUFFER_SIZE && len <= buf.Length
    ensures r == Parse(RESPOND_TYPE, buf[..], len)
  {
    var accepted, h, code, ptr := Open(host, buf, len, RESPOND_TYPE);
    if !accepted {
      return Rejected;
    }
    var status, msgAmount, msgLen, msg;
    status, ptr := ReadField(host, buf, ptr);
    msgAmount, ptr := ReadField(host, buf, ptr);
    msgLen, ptr := ReadField(host, buf, ptr);
    if ptr + msgLen > buf.Length {
      return Overrun;
    }
    msg, ptr := ReadData(buf, ptr, msgLen);
    r := Ok(Respond(h, code, status, msgAmount, msgLen, msg));
  }

  method DeserializeTran(host: Host, buf: array<byte>, len: nat) returns (r: Parsed)
    requires buf.Length == POOL_BUFFER_SIZE && len <= buf.Length
    ensures r == Parse(TRAN_TYPE, buf[..], len)
  {
    var accepted, h, code, ptr := Open(host, buf, len, TRAN_TYPE);
    if !accepted {
      return Rejected;
    }
    var user, pwd, fileName, fileMd5, fileSize, sendedSize, parentDirId;
    user, ptr := ReadData(buf, ptr, 20);
    pwd, ptr := ReadData(buf, ptr, 20);
    fileName, ptr := ReadData(buf, ptr, 100);
    fileMd5, ptr := ReadData(buf, ptr, 100);
    fileSize, ptr := ReadWideField(host, buf, ptr);
    sendedSize, ptr := ReadWideField(host, buf, ptr);
    parentDirId, ptr := ReadWideField(host, buf, ptr);
    r := Ok(Tran(h, code, user, pwd, fileName, fileMd5, fileSize, sendedSize, parentDirId));
  }

  method DeserializeTranData(host: Host, buf: array<byte>, len: nat) returns (r: Parsed)
    requires buf.Length == POOL_BUFFER_SIZE && len <= buf.Length
    ensures r == Parse(TRANDATA_TYPE, buf[..], len)
  {
    var accepted, h, code, ptr := Open(host, buf, len, TRANDATA_TYPE);
    if !accepted {
      return Rejected;
    }
    var status, fileOffset, chunkSize, totalChunks, chunkIndex, checkSum, data;
    status, ptr := ReadField(host, buf, ptr);
    fileOffset, ptr := ReadWideField(host, buf, ptr);
    chunkSize, ptr := ReadField(host, buf, ptr);
    totalChunks, ptr := ReadField(host, buf, ptr);
    chunkIndex, ptr := ReadField(host, buf, ptr);
    checkSum, ptr := ReadField(host, buf, ptr);
    if h.bodyLen != TRANDATA_BODY_BASE_LEN + chunkSize {
      return Rejected;
    }
    data, ptr := ReadData(buf, ptr, chunkSize);
    r := Ok(TranData(h, code, status, fileOffset, chunkSize, totalChunks, chunkIndex, checkSum, data));
  }

  method DeserializeTranFinish(host: Host, buf: array<byte>, len: nat) returns (r: Parsed)
    requires buf.Length == POOL_BUFFER_SIZE && len <= buf.Length
    ensures r == Parse(TRANFINISH_TYPE, buf[..], len)
  {
    var accepted, h, code, ptr := Open(host, buf, len, TRANFINISH_TYPE);
    if !accepted {
      return Rejected;
    }
    var fileSize, fileMd5;
    fileSize, ptr := ReadWideField(host, buf, ptr);
    fileMd5, ptr := ReadData(buf, ptr, 100);
    r := Ok(TranFinish(h, code, fileSize, fileMd5));
  }

  method DeserializeTranControl(host: Host, buf: array<byte>, len: nat) returns (r: Parsed)
    requires buf.Length == POOL_BUFFER_SIZE && len <= buf.Length
    ensures r == Parse(TRANCONTROL_TYPE, buf[..], len)
  {
    var accepted, h, code, ptr := Open(host, buf, len, TRANCONTROL_TYPE);
    if !accepted {
      return Rejected;
    }
    var action, msgLen, msg;
    action, ptr := ReadField(host, buf, ptr);
    msgLen, ptr := ReadField(host, buf, ptr);
    if ptr + msgLen > buf.Length {
      return Overrun;
    }
    msg, ptr := ReadData(buf, ptr, msgLen);
    r := Ok(TranControl(h, code, action, msgLen, msg));
  }
}
