/** The growable receive buffer: a byte queue over one vector with a read and a write
    position. The part before the read position is reused by moving the contents down.
 */
module ReceiveBuffer {
  import opened Bytes

  class Buffer {
    var data: array<byte>
    var readPos: nat
    var writePos: nat

    ghost predicate Valid()
      reads this
    {
      readPos <= writePos <= data.Length
    }

    /** The bytes received and not yet retrieved. */
    ghost function Contents(): (s: seq<byte>)
      requires Valid()
      reads this, data
    {
      data[readPos..writePos]
    }

    constructor (size: nat)
      ensures Valid() && fresh(data) && data.Length == size
      ensures Contents() == []
    {
      data := new byte[size](_ => 0);
      readPos, writePos := 0, 0;
    }

    function WriteAbleBytes(): (n: nat)
      requires Valid()
      reads this
    {
      data.Length - writePos
    }

    function ReadAbleBytes(): (n: nat)
      requires Valid()
      reads this, data
      ensures n == |Contents()|
    {
      writePos - readPos
    }

    function PrependAbleBytes(): (n: nat)
      reads this
    {
      readPos
    }

    /** Moves the contents to the front, one byte at a time from the left, so that the
        overlap of source and destination does no harm.
     */
    method MoveToFront()
      requires Valid()
      modifies this`readPos, this`writePos, data
      ensures Valid() && readPos == 0
      ensures Contents() == old(Contents())
    {
      var readAble := ReadAbleBytes();
      var i := 0;
      while i < readAble
        modifies data
        invariant 0 <= i <= readAble
        invariant forall k :: 0 <= k < i ==> data[k] == old(Contents())[k]
        invariant forall k :: readPos + i <= k < writePos ==> data[k] == old(data[k])
      {
        data[i] := data[readPos + i];
        i := i + 1;
      }
      readPos := 0;
      writePos := readPos + readAble;
    }

    /** A longer vector with the same elements in front. */
    method Resize(size: nat)
      requires Valid() && size >= data.Length
      modifies this`data
      ensures Valid() && fresh(data) && data.Length == size
      ensures data[..old(data.Length)] == old(data[..])
    {
      var longer := new byte[size](_ => 0);
      forall i | 0 <= i < data.Length {
        longer[i] := data[i];
      }
      data := longer;
    }

    /** Makes len bytes writable without changing the contents. */
    method MakeSpace(len: nat)
      requires Valid() && WriteAbleBytes() < len
      modifies this, data
      ensures Valid() && (data == old(data) || fresh(data))
      ensures Contents() == old(Contents())
      ensures WriteAbleBytes() >= len
    {
      if WriteAbleBytes() + PrependAbleBytes() < len {
        ghost var before := data[..];
        Resize(writePos + len + 1);
        assert forall k :: 0 <= k < |before| ==> data[k] == data[..|before|][k];
      } else {
        MoveToFront();
      }
    }

    method EnsureWriteAble(len: nat)
      requires Valid()
      modifies this, data
      ensures Valid() && (data == old(data) || fresh(data))
      ensures Contents() == old(Contents())
      ensures WriteAbleBytes() >= len
    {
      if WriteAbleBytes() < len {
        MakeSpace(len);
      }
    }

    /** Stores bytes behind the contents, where the caller reads from a descriptor into. */
    method Store(bytes: seq<byte>)
      requires Valid() && |bytes| <= WriteAbleBytes()
      modifies data
      ensures data[..writePos] == old(data[..writePos])
      ensures data[writePos..writePos + |bytes|] == bytes
    {
      forall i | 0 <= i < |bytes| {
        data[writePos + i] := bytes[i];
      }
    }

    /** Turns len stored bytes into contents. */
    method HasWritten(len: nat)
      requires Valid() && len <= WriteAbleBytes()
      modifies this`writePos
      ensures Valid() && writePos == old(writePos) + len
      ensures Contents() == old(Contents()) + data[old(writePos)..writePos]
    {
      writePos := writePos + len;
    }

    /** Drops the first len bytes of the contents. */
    method Retrieve(len: nat)
      requires Valid() && len <= ReadAbleBytes()
      modifies this`readPos
      ensures Valid() && Contents() == old(Contents())[len..]
    {
      readPos := readPos + len;
    }

    /** Adds the bytes behind the contents. */
    method Append(bytes: seq<byte>)
      requires Valid()
      modifies this, data
      ensures Valid() && (data == old(data) || fresh(data))
      ensures Contents() == old(Contents()) + bytes
    {
      EnsureWriteAble(|bytes|);
      Store(bytes);
      assert data[readPos..writePos] == data[..writePos][readPos..writePos];
      HasWritten(|bytes|);
    }

    /** One `readv` into the writable part and a 65535-byte spill area; `arrived` is what
        the descriptor delivered. What spilled is appended afterwards.
     */
    method ReadFd(arrived: seq<byte>) returns (n: nat)
      requires Valid() && |arrived| <= WriteAbleBytes() + 65535
      modifies this, data
      ensures Valid() && (data == old(data) || fresh(data))
      ensures n == |arrived|
      ensures Contents() == old(Contents()) + arrived
    {
      var writeAble := WriteAbleBytes();
      n := |arrived|;
      var direct := if n <= writeAble then arrived else arrived[..writeAble];
      Store(direct);
      assert data[readPos..writePos] == data[..writePos][readPos..writePos];
      HasWritten(|direct|);
      if n > writeAble {
        var spill := arrived[writeAble..];
        assert direct + spill == arrived;
        assert old(Contents()) + direct + spill == old(Contents()) + (direct + spill);
        Append(spill);
      }
    }

    /** Empties the buffer and zeroes it. */
    method RetrieveAll()
      requires Valid()
      modifies this`readPos, this`writePos, data
      ensures Valid() && Contents() == []
      ensures readPos == writePos == 0
    {
      forall i | 0 <= i < data.Length {
        data[i] := 0;
      }
      readPos, writePos := 0, 0;
    }

    /** The first len bytes of the contents, or all of them when there are fewer. */
    method PeekToStr(len: nat) returns (s: seq<byte>)
      requires Valid()
      ensures s == if len >= |Contents()| then Contents() else Contents()[..len]
    {
      if len >= ReadAbleBytes() {
        return data[readPos..writePos];
      }
      s := data[readPos..readPos + len];
    }
  }
}
