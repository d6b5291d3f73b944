/** Fixed-width integers as bytes: what a host keeps in memory, what the network
    carries (network byte order, Appendix B of RFC 791), and the conversions between
    the two that the serializers call.
 */
module Bytes {

  type byte = x: int | 0 <= x < 256
  type uint16 = x: int | 0 <= x < 0x1_0000
  type uint32 = x: int | 0 <= x < 0x1_0000_0000
  type uint64 = x: int | 0 <= x < 0x1_0000_0000_0000_0000

  /** How a host lays an integer out in memory. */
  datatype Host = LittleEndian | BigEndian

  /** 256 to the power n: the number of values n bytes can hold. */
  function Range(n: nat): (r: nat)
    ensures r >= 1
  {
    if n == 0 then 1 else 256 * Range(n - 1)
  }

  /** Least significant byte first. */
  function LowFirst(x: nat, n: nat): (s: seq<byte>)
    ensures |s| == n
  {
    if n == 0 then [] else [x % 256] + LowFirst(x / 256, n - 1)
  }

  /** Most significant byte first: the network order. */
  function Network(x: nat, n: nat): (s: seq<byte>)
    ensures |s| == n
  {
    if n == 0 then [] else Network(x / 256, n - 1) + [x % 256]
  }

  /** The integer whose network form is s. */
  function Value(s: seq<byte>): nat {
    if s == [] then 0 else 256 * Value(s[..|s| - 1]) + s[|s| - 1]
  }

  /** The n bytes that `memcpy` from an n-byte integer variable yields on the host. */
  function Memory(host: Host, x: nat, n: nat): (s: seq<byte>)
    ensures |s| == n
  {
    match host
    case LittleEndian => LowFirst(x, n)
    case BigEndian => Network(x, n)
  }

  /** The integer a host reads from the n bytes of a variable. */
  function FromMemory(host: Host, s: seq<byte>): nat {
    match host
    case LittleEndian => Value(Reverse(s))
    case BigEndian => Value(s)
  }

  function Reverse(s: seq<byte>): (r: seq<byte>)
    ensures |r| == |s|
    ensures forall i :: 0 <= i < |s| ==> r[i] == s[|s| - 1 - i]
  {
    if s == [] then [] else Reverse(s[1..]) + [s[0]]
  }

  // ---------- host/network conversion, as the C library and htonll do it ----------

  /** `htons` and `htonl`: reverses the n bytes on a little-endian host, else nothing. */
  function Hton(host: Host, x: nat, n: nat): nat {
    match host
    case LittleEndian => Value(LowFirst(x, n))
    case BigEndian => x
  }

  /** `htonll`: the two 32-bit halves are converted and exchanged on a little-endian host. */
  function Htonll(host: Host, x: uint64): nat {
    match host
    case LittleEndian =>
      Hton(host, x % 0x1_0000_0000, 4) * 0x1_0000_0000 + Hton(host, x / 0x1_0000_0000, 4)
    case BigEndian => x
  }

  // ---------- laws ----------

  lemma {:induction false} NetworkRoundTrip(x: nat, n: nat)
    requires x < Range(n)
    ensures Value(Network(x, n)) == x
  {
    if n > 0 {
      NetworkRoundTrip(x / 256, n - 1);
      assert Network(x, n)[..n - 1] == Network(x / 256, n - 1);
    }
  }

  lemma {:induction false} ValueBound(s: seq<byte>)
    ensures Value(s) < Range(|s|)
  {
    if s != [] { ValueBound(s[..|s| - 1]); }
  }

  /** Every byte string is the network form of exactly the value it denotes. */
  lemma {:induction false} ValueRoundTrip(s: seq<byte>)
    ensures Network(Value(s), |s|) == s
  {
    if s != [] {
      ValueRoundTrip(s[..|s| - 1]);
      assert s == s[..|s| - 1] + [s[|s| - 1]];
    }
  }

  lemma ReverseConcat(s: seq<byte>, t: seq<byte>)
    ensures Reverse(s + t) == Reverse(t) + Reverse(s)
  {
  }

  lemma {:induction false} LowFirstIsReversed(x: nat, n: nat)
    ensures LowFirst(x, n) == Reverse(Network(x, n))
  {
    if n > 0 {
      LowFirstIsReversed(x / 256, n - 1);
      ReverseConcat(Network(x / 256, n - 1), [x % 256]);
    }
  }

  lemma ReverseTwice(s: seq<byte>)
    ensures Reverse(Reverse(s)) == s
  {
  }

  /** Reading a variable back yields the integer that was stored in it. */
  lemma MemoryRoundTrip(host: Host, x: nat, n: nat)
    requires x < Range(n)
    ensures FromMemory(host, Memory(host, x, n)) == x
  {
    NetworkRoundTrip(x, n);
    LowFirstIsReversed(x, n);
    ReverseTwice(Network(x, n));
  }

  /** On every host the bytes of `htonl(x)` are x in network order. */
  lemma HtonIsNetworkOrder(host: Host, x: nat, n: nat)
    requires x < Range(n)
    ensures Hton(host, x, n) < Range(n)
    ensures Memory(host, Hton(host, x, n), n) == Network(x, n)
  {
    var swapped := LowFirst(x, n);
    ValueBound(swapped);
    ValueRoundTrip(swapped);
    LowFirstIsReversed(Value(swapped), n);
    LowFirstIsReversed(x, n);
    ReverseTwice(Network(x, n));
  }

  lemma RangeConstants()
    ensures Range(1) == 0x100 && Range(2) == 0x1_0000
    ensures Range(4) == 0x1_0000_0000 && Range(8) == 0x1_0000_0000_0000_0000
  {
    assert Range(3) == 0x100_0000;
    assert Range(5) == 0x100_0000_0000;
    assert Range(6) == 0x1_0000_0000_0000;
    assert Range(7) == 0x100_0000_0000_0000;
  }

  lemma SplitLowByte(q: nat, low: nat)
    ensures (256 * q + low) / 256 == q + low / 256
    ensures (256 * q + low) % 256 == low % 256
  {
  }

  lemma ScaleRange(high: nat, n: nat)
    requires n > 0
    ensures high * Range(n) == 256 * (high * Range(n - 1))
  {
    assert Range(n) == 256 * Range(n - 1);
  }

  /** A wide integer is the network form of its high part followed by its low part. */
  lemma {:induction false} NetworkSplit(high: nat, low: nat, m: nat, n: nat)
    requires low < Range(n)
    ensures Network(high * Range(n) + low, m + n) == Network(high, m) + Network(low, n)
  {
    if n > 0 {
      var q, x := high * Range(n - 1), high * Range(n) + low;
      ScaleRange(high, n);
      SplitLowByte(q, low);
      NetworkSplit(high, low / 256, m, n - 1);
      calc {
        Network(x, m + n);
        Network(x / 256, m + n - 1) + [x % 256];
        Network(q + low / 256, m + (n - 1)) + [low % 256];
        Network(high, m) + Network(low / 256, n - 1) + [low % 256];
        Network(high, m) + (Network(low / 256, n - 1) + [low % 256]);
        Network(high, m) + Network(low, n);
      }
    }
  }

  /** The same for the order of a little-endian memory, low part first. */
  lemma LowFirstSplit(high: nat, low: nat, m: nat, n: nat)
    requires low < Range(n)
    ensures LowFirst(high * Range(n) + low, m + n) == LowFirst(low, n) + LowFirst(high, m)
  {
    var x := high * Range(n) + low;
    assert LowFirst(x, m + n) == Reverse(Network(high, m) + Network(low, n)) by {
      NetworkSplit(high, low, m, n);
      LowFirstIsReversed(x, m + n);
    }
    ReverseConcat(Network(high, m), Network(low, n));
    LowFirstIsReversed(high, m);
    LowFirstIsReversed(low, n);
  }

  /** Converting and exchanging two halves puts the whole in network order. */
  lemma SwappedHalves(high: nat, low: nat, n: nat)
    requires low < Range(n) && high < Range(n)
    ensures var swapped := Hton(LittleEndian, low, n) * Range(n) + Hton(LittleEndian, high, n);
            LowFirst(swapped, n + n) == Network(high * Range(n) + low, n + n)
  {
    HtonIsNetworkOrder(LittleEndian, low, n);
    HtonIsNetworkOrder(LittleEndian, high, n);
    LowFirstSplit(Hton(LittleEndian, low, n), Hton(LittleEndian, high, n), n, n);
    NetworkSplit(high, low, n, n);
  }

  /** On every host the bytes of `htonll(x)` are x in network order. */
  lemma HtonllIsNetworkOrder(host: Host, x: uint64)
    ensures Htonll(host, x) < Range(8)
    ensures Memory(host, Htonll(host, x), 8) == Network(x, 8)
  {
    RangeConstants();
    if host == LittleEndian {
      var low, high, n := x % 0x1_0000_0000, x / 0x1_0000_0000, 4;
      HtonIsNetworkOrder(host, low, n);
      HtonIsNetworkOrder(host, high, n);
      SwappedHalves(high, low, n);
    }
  }

  /** `ntohll` is `htonll`: applying it twice changes nothing. */
  lemma HtonllInvolution(host: Host, x: uint64)
    ensures Htonll(host, x) < 0x1_0000_0000_0000_0000
    ensures Htonll(host, Htonll(host, x)) == x
  {
    RangeConstants();
    HtonllIsNetworkOrder(host, x);
    var y := Htonll(host, x);
    HtonllIsNetworkOrder(host, y);
    MemoryRoundTrip(host, Htonll(host, y), 8);
    MemoryRoundTrip(host, y, 8);
    if host == LittleEndian {
      // the memory of y is the network form of x, hence the memory of htonll(y) is that of x
      LowFirstIsReversed(y, 8);
      LowFirstIsReversed(x, 8);
      ReverseTwice(Network(y, 8));
      MemoryRoundTrip(host, x, 8);
    }
  }

  /** `ntohl` after `memcpy` from the network reads the integer those bytes denote. */
  lemma NtohReadsValue(host: Host, s: seq<byte>)
    ensures FromMemory(host, s) < Range(|s|)
    ensures Hton(host, FromMemory(host, s), |s|) == Value(s)
  {
    ValueBound(s);
    ValueBound(Reverse(s));
    if host == LittleEndian {
      ValueRoundTrip(Reverse(s));
      LowFirstIsReversed(Value(Reverse(s)), |s|);
      ReverseTwice(s);
    }
  }

  /** `ntohll` after `memcpy` from the network reads the integer those bytes denote. */
  lemma NtohllReadsValue(host: Host, s: seq<byte>)
    requires |s| == 8
    ensures FromMemory(host, s) < Range(8)
    ensures Value(s) < Range(8)
    ensures Htonll(host, FromMemory(host, s)) == Value(s)
  {
    RangeConstants();
    ValueBound(s);
    var x: uint64 := Value(s);
    ValueRoundTrip(s);
    HtonllIsNetworkOrder(host, x);
    MemoryRoundTrip(host, Htonll(host, x), 8);
    HtonllInvolution(host, x);
  }
}
