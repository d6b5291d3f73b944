/** How a file is cut into chunks, in the integer widths of the client and the server, and
    the client's bookkeeping of which chunks have been acknowledged.
 */
module Chunks {
  import opened Bytes
  import opened Wire
  import EventLoop

  const CHUNK_SIZE := 2048
  const MAX_FILE_SIZE := 0xFFFF_FFFF * CHUNK_SIZE

  function AsUint32(x: int): uint32 {
    x % 0x1_0000_0000
  }

  function AsUint64(x: int): uint64 {
    x % 0x1_0000_0000_0000_0000
  }

  // ---------- the partition of a file ----------

  /** The number of chunks a file of the given size has. */
  function Count(size: nat): nat {
    (size + CHUNK_SIZE - 1) / CHUNK_SIZE
  }

  function Offset(i: nat): nat {
    i * CHUNK_SIZE
  }

  function Len(size: nat, i: nat): (n: nat)
    requires i < Count(size)
    ensures 1 <= n <= CHUNK_SIZE && Offset(i) + n <= size
  {
    if i == Count(size) - 1 then size - Offset(i) else CHUNK_SIZE
  }

  /** The chunks tile the file: each byte lies in exactly one, and which one is known. */
  lemma Tiling(size: nat, k: nat, i: nat)
    requires k < size && i < Count(size)
    ensures Offset(i) <= k < Offset(i) + Len(size, i) <==> i == k / CHUNK_SIZE
    ensures k / CHUNK_SIZE < Count(size)
  {
  }

  /** The lengths of the first n chunks add up to where the next one starts. */
  lemma {:induction false} LengthsAddUp(size: nat, n: nat)
    requires n <= Count(size)
    ensures Total(size, n) == if n == Count(size) then size else Offset(n)
  {
    if n > 0 {
      LengthsAddUp(size, n - 1);
    }
  }

  function Total(size: nat, n: nat): nat
    requires n <= Count(size)
  {
    if n == 0 then 0 else Total(size, n - 1) + Len(size, n - 1)
  }

  // ---------- the same numbers as the programs compute them ----------

  /** The client's count: a 64-bit quotient put into a 32-bit variable. */
  function TotalChunks(size: uint64): uint32 {
    AsUint32(AsUint64(AsUint64(size - 1) / CHUNK_SIZE + 1))
  }

  /** The client's length of the last chunk. */
  function LastChunkSize(size: uint64): uint32 {
    AsUint32(AsUint64(size - AsUint64(AsUint32(TotalChunks(size) - 1) * CHUNK_SIZE)))
  }

  /** The client's count is right exactly up to the largest file 2^32 - 1 chunks can hold. */
  lemma TotalChunksExact(size: uint64)
    ensures TotalChunks(size) == Count(size) <==> size <= MAX_FILE_SIZE
  {
    if size > 0 {
      assert AsUint64(size - 1) == size - 1;
      assert (size - 1) / CHUNK_SIZE + 1 == Count(size);
      assert Count(size) < 0x1_0000_0000 <==> size <= MAX_FILE_SIZE;
    }
  }

  lemma LastChunkSizeExact(size: uint64)
    requires 0 < size <= MAX_FILE_SIZE
    ensures LastChunkSize(size) == Len(size, Count(size) - 1)
  {
    TotalChunksExact(size);
    var n := Count(size);
    assert AsUint32(n - 1) == n - 1;
    assert AsUint64((n - 1) * CHUNK_SIZE) == Offset(n - 1);
  }

  /** Both send loops count with a 32-bit variable: before step k it holds k mod 2^32. */
  predicate LoopLeft(total: nat, k: nat) {
    k % 0x1_0000_0000 >= total
  }

  /** The server counts the chunks in 64 bits. Its loop leaves after exactly that many steps
      if the count fits 32 bits, and never otherwise.
   */
  lemma LoopTerminates(total: nat)
    ensures (exists k: nat :: LoopLeft(total, k)) <==> total < 0x1_0000_0000
    ensures total < 0x1_0000_0000 ==> LoopLeft(total, total) && forall k: nat :: k < total ==> !LoopLeft(total, k)
  {
    if total < 0x1_0000_0000 {
      assert LoopLeft(total, total);
    }
  }

  // ---------- sending ----------

  /** The PDU that carries chunk i of a file. */
  function ChunkPdu(code: uint32, source: seq<byte>, i: nat): Pdu
    requires i < Count(|source|) && |source| <= MAX_FILE_SIZE
  {
    var n := Len(|source|, i);
    TranData(Header(TRANDATA_TYPE, TRANDATA_BODY_BASE_LEN + n, 0, 0), code, 0, Offset(i), n,
             Count(|source|), i, 0, source[Offset(i)..Offset(i) + n])
  }

  /** The PDU says which 2048 bytes of the file it carries, the last ones being fewer, out of
      how many such pieces, and has these bytes.
   */
  predicate CarriesChunk(p: Pdu, code: uint32, source: seq<byte>, i: nat) {
    && p.TranData? && p.code == code && p.chunkIndex == i && p.fileOffset == i * 2048
    && p.chunkSize == |p.data| && i * 2048 + |p.data| <= |source|
    && (|p.data| == 2048 || (|p.data| < 2048 && i * 2048 + |p.data| == |source|)) && |p.data| > 0
    && p.data == source[i * 2048..i * 2048 + |p.data|]
    && p.totalChunks * 2048 >= |source| && (p.totalChunks - 1) * 2048 < |source|
    && p.header.kind == TRANDATA_TYPE && p.header.bodyLen == 32 + |p.data|
  }

  lemma ChunkPduCarries(code: uint32, source: seq<byte>, i: nat)
    requires i < Count(|source|) && |source| <= MAX_FILE_SIZE
    ensures CarriesChunk(ChunkPdu(code, source, i), code, source, i)
  {
  }

  /** Its frame fits the pool buffer, passes the serializer's checks and arrives unchanged. */
  lemma ChunkPduIsSendable(code: uint32, source: seq<byte>, i: nat)
    requires i < Count(|source|) && |source| <= MAX_FILE_SIZE
    ensures EventLoop.Sendable(ChunkPdu(code, source, i))
    ensures ChunkPdu(code, source, i).Tidy()
  {
  }

  /** The client's send loop over a file that stays open and readable. control gives what is
      read of the control variable before sending a chunk: pause (1) waits and goes on, and only
      a second reading of 2 ends the transfer.
   */
  method AsyncSendFileData(source: seq<byte>, control: (nat, bool) -> nat) returns (sent: seq<Pdu>)
    requires |source| <= MAX_FILE_SIZE
    ensures |sent| <= Count(|source|)
    ensures forall k :: 0 <= k < |sent| ==> sent[k] == ChunkPdu(PUTS_DATA, source, k)
    ensures forall k :: 0 <= k < |sent| ==> CarriesChunk(sent[k], PUTS_DATA, source, k)
    ensures forall k :: 0 <= k < |sent| ==> control(k, false) == 1 || control(k, true) != 2
    ensures |sent| < Count(|source|) ==> control(|sent|, false) != 1 && control(|sent|, true) == 2
  {
    sent := [];
    TotalChunksExact(|source|);
    var total, last := TotalChunks(|source|), LastChunkSize(|source|);
    var curChunkId: uint32 := 0;
    while curChunkId < total
      invariant curChunkId == |sent| <= total
      invariant forall k :: 0 <= k < |sent| ==> sent[k] == ChunkPdu(PUTS_DATA, source, k)
      invariant forall k :: 0 <= k < |sent| ==> control(k, false) == 1 || control(k, true) != 2
      invariant forall k :: 0 <= k < |sent| ==> CarriesChunk(sent[k], PUTS_DATA, source, k)
    {
      LastChunkSizeExact(|source|);
      var n := if curChunkId == total - 1 then last else CHUNK_SIZE;
      var offset := curChunkId * CHUNK_SIZE;
      var pdu := TranData(Header(TRANDATA_TYPE, TRANDATA_BODY_BASE_LEN + n, 0, 0), PUTS_DATA, 0, offset, n,
                          total, curChunkId, 0, source[offset..offset + n]);
      if control(curChunkId, false) == 1 {
      } else if control(curChunkId, true) == 2 {
        return;
      }
      ChunkPduCarries(PUTS_DATA, source, curChunkId);
      sent := sent + [pdu];
      curChunkId := curChunkId + 1;
    }
  }

  // ---------- acknowledgements ----------

  /** The bytes of the chunks below n that are not acknowledged. */
  function Pending(size: nat, unacked: set<nat>, n: nat): nat
    requires n <= Count(size)
  {
    if n == 0 then 0
    else Pending(size, unacked, n - 1) + if n - 1 in unacked then Len(size, n - 1) else 0
  }

  lemma {:induction false} PendingAll(size: nat, unacked: set<nat>, n: nat)
    requires n <= Count(size) && forall i :: 0 <= i < n ==> i in unacked
    ensures Pending(size, unacked, n) == Total(size, n)
  {
    if n > 0 { PendingAll(size, unacked, n - 1); }
  }

  lemma {:induction false} PendingNone(size: nat, unacked: set<nat>, n: nat)
    requires n <= Count(size)
    ensures Pending(size, unacked, n) == 0 <==> forall i :: 0 <= i < n ==> i !in unacked
  {
    if n > 0 { PendingNone(size, unacked, n - 1); }
  }

  lemma {:induction false} PendingWithout(size: nat, unacked: set<nat>, id: nat, n: nat)
    requires n <= Count(size)
    ensures Pending(size, unacked - {id}, n)
         == Pending(size, unacked, n) - if id in unacked && id < n then Len(size, id) else 0
  {
    if n > 0 { PendingWithout(size, unacked, id, n - 1); }
  }

  function IdsBelow(n: nat): (s: set<nat>)
    ensures forall i: nat :: i in s <==> i < n
  {
    if n == 0 then {} else IdsBelow(n - 1) + {n - 1}
  }

  class UploadContext {
    var totalBytes: uint64
    var sendedBytes: nat
    var totalChunks: uint32
    var lastChunkSize: uint32
    var unackedId: set<nat>

    /** The numbers describe a file in range; only its chunks can be unacknowledged. */
    ghost predicate Valid()
      reads this
    {
      && totalBytes <= MAX_FILE_SIZE && totalChunks == Count(totalBytes)
      && lastChunkSize > 0 && (totalBytes > 0 ==> lastChunkSize == Len(totalBytes, totalChunks - 1))
      && forall i :: i in unackedId ==> i < totalChunks
    }

    /** Every byte is either counted as sent or waits for an acknowledgement. */
    ghost predicate Conserved()
      requires Valid()
      reads this
    {
      sendedBytes + Pending(totalBytes, unackedId, totalChunks) == totalBytes
    }

    /** A file is chosen: its chunks are all unacknowledged. */
    constructor (size: uint64)
      requires size <= MAX_FILE_SIZE
      ensures Valid() && Conserved() && totalBytes == size
      ensures unackedId == IdsBelow(Count(size))
    {
      TotalChunksExact(size);
      if size > 0 { LastChunkSizeExact(size); }
      totalBytes, sendedBytes := size, 0;
      totalChunks, lastChunkSize := TotalChunks(size), LastChunkSize(size);
      unackedId := {};
      new;
      var i: uint32 := 0;
      while i < totalChunks
        modifies this`unackedId
        invariant i <= totalChunks
        invariant unackedId == IdsBelow(i)
      {
        unackedId := unackedId + {i};
        i := i + 1;
      }
      PendingAll(size, unackedId, totalChunks);
      LengthsAddUp(size, totalChunks);
    }

    /** An acknowledgement for a chunk. Conservation survives it exactly when that chunk was
        not acknowledged before.
     */
    method HandlePutsDataRespond(chunkId: uint32)
      requires Valid()
      modifies this`sendedBytes, this`unackedId
      ensures Valid()
      ensures unackedId == old(unackedId) - {chunkId}
      ensures chunkId < totalChunks ==> sendedBytes == old(sendedBytes) + Len(totalBytes, chunkId)
      ensures old(Conserved()) ==> (Conserved() <==> chunkId in old(unackedId))
    {
      PendingWithout(totalBytes, unackedId, chunkId, totalChunks);
      unackedId := unackedId - {chunkId};
      sendedBytes := sendedBytes + if chunkId == AsUint32(totalChunks - 1) then lastChunkSize else CHUNK_SIZE;
    }

    /** Acknowledgements for distinct chunks, in any order, for all of them in the end: each
        keeps the bytes conserved, and afterwards everything counts as sent.
     */
    method SettleAll(ids: seq<uint32>)
      requires Valid() && Conserved() && unackedId == IdsBelow(totalChunks)
      requires forall i :: 0 <= i < |ids| ==> ids[i] < totalChunks
      requires forall i, j :: 0 <= i < j < |ids| ==> ids[i] != ids[j]
      requires forall id :: 0 <= id < totalChunks ==> id in ids
      modifies this`sendedBytes, this`unackedId
      ensures Valid() && Conserved()
      ensures unackedId == {} && sendedBytes == totalBytes
    {
      var k := 0;
      while k < |ids|
        invariant 0 <= k <= |ids| && Valid() && Conserved()
        invariant forall i :: 0 <= i < k ==> ids[i] !in unackedId
        invariant forall i :: k <= i < |ids| ==> ids[i] in unackedId
      {
        HandlePutsDataRespond(ids[k]);
        k := k + 1;
      }
      forall id | 0 <= id < totalChunks ensures id !in unackedId {
        assert id in ids;
        var i :| 0 <= i < |ids| && ids[i] == id;
      }
      PendingNone(totalBytes, unackedId, totalChunks);
    }

    /** The server has the file already. */
    method HandlePutQuick()
      requires Valid()
      modifies this`sendedBytes, this`unackedId
      ensures Valid() && Conserved() && unackedId == {} && sendedBytes == totalBytes
    {
      sendedBytes := totalBytes;
      unackedId := {};
      PendingNone(totalBytes, unackedId, totalChunks);
    }

    /** All bytes are acknowledged exactly when no chunk is left. */
    lemma DoneIffAllAcked()
      requires Valid() && Conserved()
      ensures sendedBytes == totalBytes <==> unackedId == {}
    {
      PendingNone(totalBytes, unackedId, totalChunks);
      if sendedBytes == totalBytes {
        assert forall i :: i in unackedId ==> 0 <= i < totalChunks;
      }
    }
  }
}
