/** The server's connection-timeout heap, ordered by expiry. Times are nanoseconds of the
    high-resolution clock; timeouts are given in milliseconds. The calls are modelled one at
    a time, without their lock.
 */
module Timer {
  import opened IndexedHeap

  const NS_PER_MS := 1_000_000

  /** Names a timeout callback. */
  type Callback = nat

  type TimerNode = Entry<Callback>

  /** `duration_cast<milliseconds>`: truncates towards zero. */
  function Millis(ns: int): int {
    if ns >= 0 then ns / NS_PER_MS else -(-ns / NS_PER_MS)
  }

  /** What `getNextTick` does to a count of milliseconds: through an unsigned 64-bit
      variable into a signed 32-bit result. The comparison with zero in between is made on
      the unsigned value and changes nothing.
   */
  function AsInt32(count: int): int {
    var low := count % 0x1_0000_0000;
    if low < 0x8000_0000 then low else low - 0x1_0000_0000
  }

  function Ids(fired: seq<TimerNode>): set<int> {
    set k | 0 <= k < |fired| :: fired[k].id
  }

  function Callbacks(fired: seq<TimerNode>): (r: seq<Callback>)
    ensures |r| == |fired|
  {
    seq(|fired|, k requires 0 <= k < |fired| => fired[k].info)
  }

  /** fired was taken from the timers `was`, leaving `now`: each node once, in order of
      expiry, before anything that is left, and with less than a millisecond to go when it
      was its turn.
   */
  ghost predicate FiredFrom(was: map<int, TimerNode>, now: map<int, TimerNode>, fired: seq<TimerNode>, clock: nat -> int) {
    && (forall k :: 0 <= k < |fired| ==> fired[k].id in was && was[fired[k].id] == fired[k])
    && now == was - Ids(fired)
    && (forall k, m :: 0 <= k < m < |fired| ==> fired[k].id != fired[m].id && fired[k].key <= fired[m].key)
    && (forall k, id :: 0 <= k < |fired| && id in now ==> fired[k].key <= now[id].key)
    && (forall k :: 0 <= k < |fired| ==> fired[k].key - clock(k) < NS_PER_MS)
  }

  lemma FireOne(was: map<int, TimerNode>, now: map<int, TimerNode>, fired: seq<TimerNode>, clock: nat -> int,
                node: TimerNode)
    requires FiredFrom(was, now, fired, clock)
    requires forall id :: id in now ==> now[id].id == id
    requires node.id in now && now[node.id] == node && node.key - clock(|fired|) < NS_PER_MS
    requires forall id :: id in now ==> node.key <= now[id].key
    ensures FiredFrom(was, now - {node.id}, fired + [node], clock)
    ensures Callbacks(fired + [node]) == Callbacks(fired) + [node.info]
  {
    var more := fired + [node];
    assert forall k :: 0 <= k < |fired| ==> more[k] == fired[k];
    assert Ids(more) == Ids(fired) + {node.id} by {
      assert more[|fired|] == node;
      assert forall id :: id in Ids(fired) ==> id in Ids(more);
    }
    assert forall k :: 0 <= k < |fired| ==> fired[k].id in Ids(fired);
  }

  /** No other timer expires before this one. */
  ghost predicate IsFirst(timers: map<int, TimerNode>, id: int) {
    id in timers && forall other :: other in timers ==> timers[id].key <= timers[other].key
  }

  /** r is -1 without a timer, else the whole milliseconds from the reading `later` to the
      first expiry as a 32-bit number.
   */
  ghost predicate IsNextTick(timers: map<int, TimerNode>, later: int, r: int) {
    if timers == map[] then r == -1
    else exists id :: IsFirst(timers, id) && r == AsInt32(Millis(timers[id].key - later))
  }

  predicate FitsInt32(x: int) {
    -0x8000_0000 <= x < 0x8000_0000
  }

  /** The number is kept exactly in the 32-bit range, some 24 days either way. */
  lemma AsInt32Exact(count: int)
    ensures AsInt32(count) == count <==> FitsInt32(count)
  {
  }

  /** The answer is the whole milliseconds that lie between the reading and the first expiry,
      counted towards zero, as long as they fit.
   */
  lemma TickMeans(timers: map<int, TimerNode>, later: int, r: int, id: int)
    requires IsNextTick(timers, later, r) && IsFirst(timers, id)
    ensures 0 <= timers[id].key - later < 0x8000_0000 * NS_PER_MS ==>
              r * NS_PER_MS <= timers[id].key - later < (r + 1) * NS_PER_MS
    ensures 0 <= later - timers[id].key < 0x8000_0000 * NS_PER_MS ==>
              -r * NS_PER_MS <= later - timers[id].key < (-r + 1) * NS_PER_MS
  {
    assert timers != map[];
    var first :| IsFirst(timers, first) && r == AsInt32(Millis(timers[first].key - later));
    assert timers[first].key == timers[id].key;
    AsInt32Exact(Millis(timers[id].key - later));
  }

  /** For expiries in that range: the answer is negative exactly if there is no timer or some
      timer is overdue by a millisecond or more; and the answer -1, which is to say that there
      is no timer, comes exactly also when the longest overdue is so by less than two.
   */
  lemma NegativeTickIff(timers: map<int, TimerNode>, later: int, r: int)
    requires IsNextTick(timers, later, r)
    requires forall id :: id in timers ==> FitsInt32(Millis(timers[id].key - later))
    ensures r < 0 <==> timers == map[] || exists id :: id in timers && later - timers[id].key >= NS_PER_MS
    ensures r == -1 <==> timers == map[]
                         || ((exists id :: id in timers && later - timers[id].key >= NS_PER_MS)
                             && forall id :: id in timers ==> later - timers[id].key < 2 * NS_PER_MS)
  {
    if timers != map[] {
      var id :| IsFirst(timers, id) && r == AsInt32(Millis(timers[id].key - later));
      AsInt32Exact(Millis(timers[id].key - later));
      assert later - timers[id].key >= NS_PER_MS <==> exists other :: other in timers && later - timers[other].key >= NS_PER_MS;
    }
  }

  /** A timer that has a millisecond left at the tick, asked for two milliseconds later. */
  lemma NegativeTickExample(t: int)
    ensures var timers := map[7 := Entry(7, t + NS_PER_MS, 0)];
            && timers[7].key - t >= NS_PER_MS
            && IsNextTick(timers, t + 2 * NS_PER_MS, -1) && IsNextTick(timers, t + 4 * NS_PER_MS, -3)
  {
    var timers := map[7 := Entry(7, t + NS_PER_MS, 0)];
    assert IsFirst(timers, 7);
    assert AsInt32(Millis(-NS_PER_MS)) == -1 && AsInt32(Millis(-3 * NS_PER_MS)) == -3;
  }

  class Timer {
    const h: Heap<Callback>

    ghost predicate Valid()
      reads h
    {
      h.Valid()
    }

    /** The running timers by id. */
    ghost function Timers(): map<int, TimerNode>
      requires Indexed(h.heap, h.index)
      reads h
    {
      h.Nodes()
    }

    constructor ()
      ensures Valid() && fresh(h) && Timers() == map[]
    {
      h := new Heap();
    }

    /** Starts a timer, or restarts it with another expiry and callback. */
    method Add(id: int, timeout: int, cb: Callback, now: int) returns (r: int)
      requires Valid()
      modifies h
      ensures Valid()
      ensures id < 0 ==> r == -1 && Timers() == old(Timers())
      ensures id >= 0 ==> r == 0 && Timers() == old(Timers())[id := Entry(id, now + timeout * NS_PER_MS, cb)]
    {
      if id < 0 {
        return -1;
      }
      var node := Entry(id, now + timeout * NS_PER_MS, cb);
      if id !in h.index {
        var i := |h.heap|;
        h.PushBack(node);
        h.SiftUp(i, |h.heap|);
      } else {
        var i := h.index[id];
        h.Replace(i, node);
        h.Settle(i, |h.heap|);
      }
      r := 0;
    }

    /** Gives a timer another expiry and only ever moves it down. That keeps the order if
        and only if the new expiry is not before the parent's, which holds in particular when
        no timer expires later than the new one.
     */
    method Adjust(id: int, addTime: int, now: int) returns (r: int)
      requires Valid()
      modifies h
      ensures Indexed(h.heap, h.index)
      ensures id !in old(Timers()) ==> r == -1 && Valid() && Timers() == old(Timers())
      ensures id in old(Timers()) ==>
        var expires := now + addTime * NS_PER_MS;
        var i := old(h.index)[id];
        && r == 0
        && Timers() == old(Timers())[id := old(Timers())[id].(key := expires)]
        && (Valid() <==> i == 0 || old(h.heap)[Parent(i)].key <= expires)
        && (old(Timers())[id].key <= expires ==> Valid())
    {
      if id !in h.index {
        return -1;
      }
      var i := h.index[id];
      assert i > 0 ==> Above(h.heap, i);
      h.Replace(i, h.heap[i].(key := now + addTime * NS_PER_MS));
      ghost var replaced := h.heap;
      var moved := h.SiftDown(i, |h.heap|);
      if i > 0 {
        assert Above(h.heap, i) <==> moved || Above(replaced, i);
      }
      r := 0;
    }

    /** Runs a timer's callback, then deletes what Del deletes. */
    method Doing(id: int) returns (r: int, fired: seq<Callback>)
      requires Valid()
      modifies h
      ensures Valid()
      ensures id !in old(Timers()) ==> r == -1 && fired == [] && Timers() == old(Timers())
      ensures id in old(Timers()) ==>
        && r == 0 && fired == [old(Timers())[id].info]
        && Timers() == old(Timers()) - {Victim(old(h.heap), old(h.index)[id])}
    {
      if id !in h.index {
        return -1, [];
      }
      var i := h.index[id];
      fired := [h.heap[i].info];
      Del(i);
      r := 0;
    }

    method Clear()
      requires Indexed(h.heap, h.index)
      modifies h
      ensures Valid() && Timers() == map[]
    {
      h.index, h.heap := map[], [];
    }

    /** Runs and removes timers from the top until the top one has a millisecond left.
        clock(k) is the reading of the clock before the k-th removal. What fired, fired once,
        in order of expiry; what is left is not due at the last reading.
     */
    method Tick(clock: nat -> int) returns (cnt: nat, ghost fired: seq<TimerNode>, called: seq<Callback>)
      requires Valid()
      modifies h
      ensures Valid() && cnt == |fired| && called == Callbacks(fired)
      ensures FiredFrom(old(Timers()), Timers(), fired, clock)
      ensures forall id :: id in Timers() ==> Timers()[id].key - clock(cnt) >= NS_PER_MS
    {
      cnt, fired, called := 0, [], [];
      while |h.heap| > 0
        invariant Valid() && cnt == |fired| && called == Callbacks(fired)
        invariant FiredFrom(old(Timers()), Timers(), fired, clock)
        decreases |h.heap|
      {
        var node := h.heap[0];
        assert node.id in Timers() && Timers()[node.id] == node;
        forall id | id in Timers() ensures node.key <= Timers()[id].key {
          RootIsLeast(h.heap, h.index[id]);
        }
        if Millis(node.key - clock(cnt)) > 0 {
          return;
        }
        called := called + [node.info];
        FireOne(old(Timers()), Timers(), fired, clock, node);
        fired := fired + [node];
        var r := Pop();
        cnt := cnt + 1;
      }
    }

    /** Removes the top timer. */
    method Pop() returns (r: int)
      requires Valid()
      modifies h
      ensures Valid()
      ensures old(h.heap) == [] ==> r == -1 && Timers() == old(Timers()) && h.heap == []
      ensures old(h.heap) != [] ==> r == 0 && Timers() == old(Timers()) - {old(h.heap)[0].id}
                                    && |h.heap| == |old(h.heap)| - 1
    {
      if |h.heap| == 0 {
        return -1;
      }
      Del(0);
      r := 0;
    }

    /** Fires what is due, then tells how long the next timer has. */
    method GetNextTick(clock: nat -> int, later: int)
      returns (r: int, ghost fired: seq<TimerNode>, called: seq<Callback>)
      requires Valid()
      modifies h
      ensures Valid() && called == Callbacks(fired)
      ensures FiredFrom(old(Timers()), Timers(), fired, clock)
      ensures forall id :: id in Timers() ==> Timers()[id].key - clock(|fired|) >= NS_PER_MS
      ensures IsNextTick(Timers(), later, r)
      ensures Timers() == map[] ==> r == -1
      ensures forall id :: IsFirst(Timers(), id) && 0 <= Timers()[id].key - later < 0x8000_0000 * NS_PER_MS ==>
                r * NS_PER_MS <= Timers()[id].key - later < (r + 1) * NS_PER_MS
    {
      var cnt;
      cnt, fired, called := Tick(clock);
      if |h.heap| == 0 {
        assert forall id :: id !in Timers();
        return -1, fired, called;
      }
      ghost var id := h.heap[0].id;
      assert id in Timers();
      forall other | other in Timers() ensures Timers()[id].key <= Timers()[other].key {
        RootIsLeast(h.heap, h.index[other]);
      }
      assert IsFirst(Timers(), id);
      r := AsInt32(Millis(h.heap[0].key - later));
      forall first | IsFirst(Timers(), first) && 0 <= Timers()[first].key - later < 0x8000_0000 * NS_PER_MS
        ensures r * NS_PER_MS <= Timers()[first].key - later < (r + 1) * NS_PER_MS
      {
        TickMeans(Timers(), later, r, first);
      }
    }

    /** Exchanges slot i with the last one, settles it and drops the last. Without a special
        case for the last slot itself, a timer there goes up past a parent of equal expiry,
        and the parent is dropped instead.
     */
    method Del(i: nat)
      requires Valid() && i < |h.heap|
      modifies h
      ensures Valid() && Timers() == old(Timers()) - {Victim(old(h.heap), i)}
      ensures |h.heap| == |old(h.heap)| - 1
    {
      MoveToEnd(i);
      h.PopBack();
    }

    /** Exchange and sifts of Del: the last slot ends with the victim, the others in order. */
    method MoveToEnd(i: nat)
      requires Valid() && i < |h.heap|
      modifies h
      ensures Indexed(h.heap, h.index) && Timers() == old(Timers())
      ensures |h.heap| == |old(h.heap)| && Ordered(h.heap, |h.heap| - 1)
      ensures h.heap[|h.heap| - 1].id == Victim(old(h.heap), i)
    {
      var n := |h.heap| - 1;
      ghost var victim := Victim(h.heap, i);
      Exchanged(h.heap, i);
      h.SwapNode(i, n);
      Resettle(i, n, victim);
    }

    /** Down, and only if nothing moved, up. */
    method Resettle(i: nat, n: nat, ghost victim: int)
      requires Indexed(h.heap, h.index) && i <= n && n + 1 == |h.heap| && OpenAround(h.heap, i, n, victim)
      modifies h
      ensures Indexed(h.heap, h.index) && Timers() == old(Timers())
      ensures |h.heap| == n + 1 && Ordered(h.heap, n)
      ensures h.heap[n].id == victim
    {
      ghost var swapped := h.heap;
      var moved := h.SiftDown(i, n);
      if !moved {
        ghost var m := if i == n then n + 1 else n;
        ReadyToRise(swapped, i, n, m);
        h.SiftUp(i, m);
        OrderedLess(h.heap, m, n);
      }
    }
  }

  /** The order is open around slot i, and the victim is last or about to be. */
  ghost predicate OpenAround(heap: seq<TimerNode>, i: nat, n: nat, victim: int)
    requires i <= n && n + 1 == |heap|
  {
    OrderedBut(heap, n, i) && if i < n then victim == heap[n].id else LastSettles(heap, n, victim)
  }

  lemma Exchanged(heap: seq<TimerNode>, i: nat)
    requires i < |heap| && Ordered(heap, |heap|)
    ensures var n := |heap| - 1;
            OpenAround(heap[i := heap[n]][n := heap[i]], i, n, Victim(heap, i))
  {
    LastMoved(heap, i);
    if i == |heap| - 1 { LastStays(heap, i); }
  }

  /** The last slot's node is in order, and going up it changes places with its parent exactly
      if both expire at the same time.
   */
  ghost predicate LastSettles(heap: seq<TimerNode>, n: nat, victim: int)
    requires n + 1 == |heap|
  {
    && OrderedBut(heap, n + 1, n)
    && victim == if n > 0 && heap[Parent(n)].key >= heap[n].key then heap[Parent(n)].id else heap[n].id
  }

  /** A node that did not move down is ready to move up, in the last slot as well. */
  lemma ReadyToRise(heap: seq<TimerNode>, i: nat, n: nat, m: nat)
    requires n + 1 == |heap| && i <= n && m == if i == n then n + 1 else n
    requires forall c :: 0 < c < n && c != i ==> Above(heap, c)
    requires if i == n then OrderedBut(heap, n + 1, n) else OrderedBut(heap, n, i)
    ensures (forall c :: 0 < c < m && c != i ==> Above(heap, c)) && OrderedBut(heap, m, i)
  {
  }

  lemma OrderedLess(heap: seq<TimerNode>, m: nat, n: nat)
    requires n <= m <= |heap| && Ordered(heap, m)
    ensures Ordered(heap, n)
  {
  }

  /** Exchanging the last slot with itself leaves the heap as it is, order included. */
  lemma LastStays(heap: seq<TimerNode>, n: nat)
    requires n + 1 == |heap| && Ordered(heap, |heap|)
    ensures heap[n := heap[n]][n := heap[n]] == heap
    ensures Ordered(heap, n) && OrderedBut(heap, n + 1, n)
    ensures LastSettles(heap, n, Victim(heap, n))
  {
    assert n > 0 ==> Above(heap, n);
    forall c | 0 < c < n ensures Above(heap, c) {
    }
  }

  /** The id that Del(i) removes. */
  ghost function Victim(heap: seq<TimerNode>, i: nat): int
    requires i < |heap|
  {
    if i == |heap| - 1 && i > 0 && heap[Parent(i)].key == heap[i].key then heap[Parent(i)].id else heap[i].id
  }

  /** Del(i) removes the id in slot i exactly when i is not the last slot, or is the only
      one, or the parent expires at another time.
   */
  lemma VictimIsAsked(heap: seq<TimerNode>, index: map<int, nat>, i: nat)
    requires i < |heap| && Indexed(heap, index)
    ensures Victim(heap, i) == heap[i].id
       <==> i != |heap| - 1 || i == 0 || heap[Parent(i)].key != heap[i].key
    ensures Victim(heap, i) == heap[i].id || (i > 0 && Victim(heap, i) == heap[Parent(i)].id)
  {
    if i > 0 { assert index[heap[Parent(i)].id] != index[heap[i].id]; }
  }

  /** Two timers of one expiry: deleting the second removes the first. */
  lemma VictimExample(t: int)
    ensures Victim([Entry(7, t, 0), Entry(9, t, 0)], 1) == 7
  {
  }

  /** When the clock stands still during a tick, exactly the timers with less than a
      millisecond left fire.
   */
  lemma FiredAtOneReading(was: map<int, TimerNode>, now: map<int, TimerNode>, fired: seq<TimerNode>, t: int)
    requires FiredFrom(was, now, fired, _ => t)
    requires forall id :: id in now ==> now[id].key - t >= NS_PER_MS
    ensures Ids(fired) == set id | id in was && was[id].key - t < NS_PER_MS
  {
    forall id | id in was && was[id].key - t < NS_PER_MS ensures id in Ids(fired) {
      assert id !in now;
    }
    forall id | id in Ids(fired) ensures id in was && was[id].key - t < NS_PER_MS {
      var k :| 0 <= k < |fired| && fired[k].id == id;
    }
  }
}
