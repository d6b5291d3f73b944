/** Whether the uploads of one user fit the capacity: what the accepted requests amount to,
    and what happens once they amount to too much.
 */
module Capacity {
  import opened FileServer
  import opened MyDB
  import opened Sums

  ghost function PendingOf(conns: map<nat, Conn>): map<nat, nat> {
    map c | c in conns && conns[c].Unfinished() :: conns[c].size
  }

  /** The bytes that unfinished uploads will use. */
  ghost function Pending(conns: map<nat, Conn>): nat {
    Sum(PendingOf(conns))
  }

  /** What is used, and what will be when every unfinished upload is done. */
  ghost function Promised(w: World): int {
    w.store.used + Pending(w.conns)
  }

  /** What is used and what is being uploaded fit the capacity together. */
  ghost predicate WithinCapacity(w: World) {
    0 <= w.store.used && Promised(w) <= w.store.capacity < 0x1_0000_0000_0000_0000
  }

  /** The comparison in unsigned arithmetic means what it should exactly while the used
      capacity has not passed the total; past it, it allows nearly everything.
   */
  lemma EnoughSpaceIff(s: Store, size: nat)
    requires 0 <= s.used < 0x1_0000_0000_0000_0000 && s.capacity < 0x1_0000_0000_0000_0000
    ensures EnoughSpace(s, size) <==> if s.used <= s.capacity then s.used + size <= s.capacity
                                      else size <= 0x1_0000_0000_0000_0000 - (s.used - s.capacity)
  {
  }

  // ---------- what is promised, step by step ----------

  function PartOf(conns: map<nat, Conn>, c: nat): nat {
    if c in conns && conns[c].Unfinished() then conns[c].size else 0
  }

  /** Setting one connection changes what is pending by that connection's part. */
  lemma PendingSet(conns: map<nat, Conn>, c: nat, k: Conn)
    ensures Pending(conns[c := k]) == Pending(conns) + (if k.Unfinished() then k.size else 0) - PartOf(conns, c)
  {
    PendingDrop(conns, c);
    PendingDrop(conns[c := k], c);
    assert conns[c := k] - {c} == conns - {c};
  }

  lemma PendingDrop(conns: map<nat, Conn>, c: nat)
    ensures Pending(conns - {c}) == Pending(conns) - PartOf(conns, c)
  {
    var rest := PendingOf(conns - {c});
    assert rest == PendingOf(conns) - {c};
    if c in conns && conns[c].Unfinished() {
      SumWithout(PendingOf(conns), c);
    } else {
      assert rest == PendingOf(conns);
    }
  }

  /** The event is a request that gets a row, at once or when it is uploaded. */
  ghost predicate Accepted(w: World, e: Event) {
    e.Puts? && Taken(w, e.c, e.r) && (TaskOutcome(w.store, e.r).Fresh? || TaskOutcome(w.store, e.r).Quick?)
  }

  lemma AcceptedAdds(w: World, e: Event)
    requires Accepted(w, e) && ConnOk(w.conns[e.c])
    ensures Promised(Step(w, e)) == Promised(w) + e.r.size
  {
    PendingSet(w.conns, e.c, Step(w, e).conns[e.c]);
  }

  /** A data event between connections in order: an upload's part becomes a used part. */
  lemma DataPromised(w: World, c: nat, n: nat)
    requires c in w.conns && w.conns[c].status == Doing ==> w.conns[c].isPut && w.conns[c].handled != w.conns[c].size
    ensures Promised(Step(w, PutsData(c, n))) <= Promised(w)
    ensures c in w.conns && w.conns[c].handled + n <= w.conns[c].size ==>
              Promised(Step(w, PutsData(c, n))) == Promised(w)
  {
    if c in w.conns && w.conns[c].status == Doing {
      PendingSet(w.conns, c, Step(w, PutsData(c, n)).conns[c]);
      assert w.conns[c := w.conns[c]] == w.conns;
    }
  }

  lemma DeletionPromised(w: World, e: Event, sizeOf: string -> nat)
    requires WorldOk(w, sizeOf) && Proper(w, e, sizeOf) && (e.DeleteFile? || e.DeleteDir?)
    ensures Promised(Step(w, e)) <= Promised(w)
  {
    DeleteOk(w, e, sizeOf);
    if Step(w, e) != w {
      var gone :| Step(w, e) == w.(store := Without(w.store, gone));
      UsedShrinks(w.store, gone);
    }
  }

  lemma {:induction false} UsedShrinks(s: Store, gone: set<nat>)
    requires UsedOk(s)
    ensures Without(s, gone).used <= s.used
    decreases |gone|
  {
    if gone * s.rows.Keys == {} {
      assert s.rows - gone == s.rows;
    } else {
      var x :| x in gone && x in s.rows;
      SumWithout(Sizes(s.rows), x);
      assert Sizes(s.rows) - {x} == Sizes(s.rows - {x});
      UsedShrinks(Without(s, {x}), gone - {x});
      WithoutTwice(s, {x}, gone - {x});
      assert {x} + (gone - {x}) == gone;
    }
  }

  lemma OtherPromised(w: World, e: Event)
    requires e.Connect? || e.PutsFinish? || e.Disconnect? || e.MakeDir?
    ensures Promised(Step(w, e)) <= Promised(w)
  {
    match e
    case Connect(c) => if c !in w.conns { PendingSet(w.conns, c, NEW_CONN); }
    case PutsFinish(c) => if c in w.conns { PendingSet(w.conns, c, Step(w, e).conns[c]); }
    case Disconnect(c) => if c in w.conns { PendingDrop(w.conns, c); }
    case _ =>
  }

  /** Nothing but an accepted request adds to what is promised. */
  lemma PromisedStep(w: World, e: Event, sizeOf: string -> nat)
    requires WorldOk(w, sizeOf) && Proper(w, e, sizeOf)
    ensures if Accepted(w, e) then Promised(Step(w, e)) == Promised(w) + e.r.size
            else Promised(Step(w, e)) <= Promised(w)
  {
    match e
    case Puts(c, r) => if Accepted(w, e) { AcceptedAdds(w, e); }
    case PutsData(c, n) => DataPromised(w, c, n);
    case DeleteFile(_) => DeletionPromised(w, e, sizeOf);
    case DeleteDir(_) => DeletionPromised(w, e, sizeOf);
    case _ => OtherPromised(w, e);
  }

  lemma CapacityStays(w: World, e: Event)
    ensures Step(w, e).store.capacity == w.store.capacity
  {
  }

  // ---------- over runs ----------

  /** Every accepted file fits besides what is used and pending when it is accepted. */
  ghost predicate AllFit(w: World, events: seq<Event>)
    decreases |events|
  {
    events == []
    || ((Accepted(w, events[0]) ==> Promised(w) + events[0].r.size <= w.store.capacity)
        && AllFit(Step(w, events[0]), events[1..]))
  }

  ghost predicate WithinThroughout(w: World, events: seq<Event>)
    decreases |events|
  {
    WithinCapacity(w) && (events == [] || WithinThroughout(Step(w, events[0]), events[1..]))
  }

  /** The capacity is kept all the way exactly if every accepted file fits besides all that is
      pending, which the server does not look at.
   */
  lemma {:induction false} RunWithinIff(w: World, events: seq<Event>, sizeOf: string -> nat)
    requires WorldOk(w, sizeOf) && WithinCapacity(w) && AllProper(w, events, sizeOf)
    ensures WithinThroughout(w, events) <==> AllFit(w, events)
    decreases |events|
  {
    if events != [] {
      StepOk(w, events[0], sizeOf);
      PromisedStep(w, events[0], sizeOf);
      CapacityStays(w, events[0]);
      if WithinCapacity(Step(w, events[0])) {
        RunWithinIff(Step(w, events[0]), events[1..], sizeOf);
      }
    }
  }

  /** No request comes while an upload is unfinished. */
  ghost predicate NoOverlap(w: World, events: seq<Event>)
    decreases |events|
  {
    events == [] || ((events[0].Puts? ==> Pending(w.conns) == 0) && NoOverlap(Step(w, events[0]), events[1..]))
  }

  /** A user whose uploads do not overlap never passes the capacity, so the subtraction in
      the comparison never wraps around.
   */
  lemma {:induction false} RunWithin(w: World, events: seq<Event>, sizeOf: string -> nat)
    requires WorldOk(w, sizeOf) && WithinCapacity(w) && AllProper(w, events, sizeOf) && NoOverlap(w, events)
    ensures WithinThroughout(w, events) && AllFit(w, events)
    decreases |events|
  {
    if events != [] {
      StepOk(w, events[0], sizeOf);
      PromisedStep(w, events[0], sizeOf);
      CapacityStays(w, events[0]);
      if events[0].Puts? { EnoughSpaceIff(w.store, events[0].r.size); }
      RunWithin(Step(w, events[0]), events[1..], sizeOf);
    }
  }

  // ---------- past the capacity ----------

  /** Chunks as the wire can carry them, and nothing else. */
  predicate OnlyData(events: seq<Event>) {
    forall i :: 0 <= i < |events| ==> events[i].PutsData? && events[i].n < 0x1_0000_0000
  }

  ghost predicate Passes(w: World, events: seq<Event>) {
    OnlyData(events) && Run(w, events).store.used > w.store.capacity
  }

  ghost predicate ConnsInOrder(w: World) {
    forall c :: c in w.conns && w.conns[c].status == Doing ==> w.conns[c].isPut && w.conns[c].handled != w.conns[c].size
  }

  lemma {:induction false} DataRunPromised(w: World, events: seq<Event>)
    requires ConnsInOrder(w) && OnlyData(events)
    ensures Promised(Run(w, events)) <= Promised(w)
    decreases |events|
  {
    if events != [] {
      DataPromised(w, events[0].c, events[0].n);
      DataRunPromised(Step(w, events[0]), events[1..]);
    }
  }

  ghost function Open(conns: map<nat, Conn>): set<nat> {
    set c | c in conns && conns[c].Unfinished()
  }

  /** One byte of an unfinished upload. */
  lemma ByteStep(w: World, c: nat)
    requires c in w.conns && w.conns[c].Unfinished() && w.conns[c].status == Doing && w.conns[c].size < MAX_FILE
    ensures var k, w' := w.conns[c], Step(w, PutsData(c, 1));
            && Promised(w') == Promised(w) && c in w'.conns
            && (w'.conns[c] == k.(handled := k.handled + 1) || !w'.conns[c].Unfinished())
            && Open(w'.conns) == if w'.conns[c].Unfinished() then Open(w.conns) else Open(w.conns) - {c}
  {
    var w' := Step(w, PutsData(c, 1));
    DataPromised(w, c, 1);
    assert w'.conns == w.conns[c := w'.conns[c]];
  }

  lemma OpenIsDoing(w: World, c: nat, sizeOf: string -> nat)
    requires WorldOk(w, sizeOf) && c in Open(w.conns)
    ensures w.conns[c].status == Doing && w.conns[c].size < MAX_FILE && Proper(w, PutsData(c, 1), sizeOf)
  {
    assert ConnOk(w.conns[c]);
  }

  lemma NoneOpen(w: World)
    requires Open(w.conns) == {}
    ensures Promised(w) == w.store.used
  {
    assert forall c :: c in PendingOf(w.conns) ==> c in Open(w.conns);
    assert PendingOf(w.conns) == map[];
  }

  lemma DataAppend(a: seq<Event>, b: seq<Event>)
    requires OnlyData(a) && OnlyData(b)
    ensures OnlyData(a + b)
  {
  }

  /** The rest of one upload, byte by byte. */
  lemma {:induction false} FinishOne(w: World, c: nat, sizeOf: string -> nat) returns (events: seq<Event>)
    requires c in w.conns && w.conns[c].Unfinished() && w.conns[c].status == Doing && w.conns[c].size < MAX_FILE
    ensures OnlyData(events) && AllProper(w, events, sizeOf)
    ensures Promised(Run(w, events)) == Promised(w) && Open(Run(w, events).conns) == Open(w.conns) - {c}
    decreases w.conns[c].size - w.conns[c].handled
  {
    var e, w' := PutsData(c, 1), Step(w, PutsData(c, 1));
    ByteStep(w, c);
    var rest := [];
    if w'.conns[c].Unfinished() {
      rest := FinishOne(w', c, sizeOf);
    }
    events := [e] + rest;
    FirstEvent(w, e, rest, sizeOf);
    DataAppend([e], rest);
  }

  lemma {:induction false} RunAppend(w: World, a: seq<Event>, b: seq<Event>)
    ensures Run(w, a + b) == Run(Run(w, a), b)
    decreases |a|
  {
    if a == [] {
      assert a + b == b;
    } else {
      assert (a + b)[1..] == a[1..] + b;
      RunAppend(Step(w, a[0]), a[1..], b);
    }
  }

  /** All unfinished uploads can be finished, one after the other. */
  lemma {:induction false} FinishAll(w: World, sizeOf: string -> nat) returns (events: seq<Event>)
    requires WorldOk(w, sizeOf)
    ensures OnlyData(events) && Run(w, events).store.used == Promised(w)
    decreases Open(w.conns)
  {
    if Open(w.conns) == {} {
      events := [];
      NoneOpen(w);
    } else {
      var c :| c in Open(w.conns);
      OpenIsDoing(w, c, sizeOf);
      var first := FinishOne(w, c, sizeOf);
      RunOk(w, first, sizeOf);
      var rest := FinishAll(Run(w, first), sizeOf);
      RunAppend(w, first, rest);
      DataAppend(first, rest);
      events := first + rest;
    }
  }

  /** Uploads that were accepted can bring the used capacity past the total exactly if what is
      used and pending is more.
   */
  lemma PassableIff(w: World, sizeOf: string -> nat)
    requires WorldOk(w, sizeOf)
    ensures (exists events :: Passes(w, events)) <==> Promised(w) > w.store.capacity
  {
    if Promised(w) > w.store.capacity {
      var events := FinishAll(w, sizeOf);
      assert Passes(w, events);
    }
    forall events | OnlyData(events) ensures Run(w, events).store.used <= Promised(w) {
      DataRunPromised(w, events);
    }
  }

  lemma TwoEvents(w: World, e: Event, f: Event, rest: seq<Event>, sizeOf: string -> nat)
    ensures var events, w' := [e, f] + rest, Step(Step(w, e), f);
            && Run(w, events) == Run(w', rest)
            && (AllProper(w, events, sizeOf) <==>
                  Proper(w, e, sizeOf) && Proper(Step(w, e), f, sizeOf) && AllProper(w', rest, sizeOf))
            && (AllFit(w, events) <==>
                  && (Accepted(w, e) ==> Promised(w) + e.r.size <= w.store.capacity)
                  && (Accepted(Step(w, e), f) ==> Promised(Step(w, e)) + f.r.size <= Step(w, e).store.capacity)
                  && AllFit(w', rest))
  {
    assert [e, f] + rest == [e] + ([f] + rest);
    FirstEvent(w, e, [f] + rest, sizeOf);
    FirstEvent(Step(w, e), f, rest, sizeOf);
  }

  lemma FirstEvent(w: World, e: Event, rest: seq<Event>, sizeOf: string -> nat)
    ensures Run(w, [e] + rest) == Run(Step(w, e), rest)
    ensures AllProper(w, [e] + rest, sizeOf) <==> Proper(w, e, sizeOf) && AllProper(Step(w, e), rest, sizeOf)
    ensures AllFit(w, [e] + rest) <==>
              (Accepted(w, e) ==> Promised(w) + e.r.size <= w.store.capacity) && AllFit(Step(w, e), rest)
  {
    var events := [e] + rest;
    assert events[0] == e && events[1..] == rest;
  }

  lemma BothAccepted(w: World)
    requires w == World(Store(map[], 0, 10, {}), map[0 := NEW_CONN, 1 := NEW_CONN])
    ensures var e, f := Puts(0, Request("f", "a", 6, 0, true)), Puts(1, Request("g", "b", 6, 0, true));
            && Proper(w, e, m => 6) && Proper(Step(w, e), f, m => 6)
            && Accepted(Step(w, e), f) && Promised(Step(w, e)) == 6
            && Step(Step(w, e), f) == World(Store(map[], 0, 10, {"a", "b"}),
                 map[0 := Conn(Doing, true, "f", "a", 6, 0, 0), 1 := Conn(Doing, true, "g", "b", 6, 0, 0)])
  {
    var e, f := Puts(0, Request("f", "a", 6, 0, true)), Puts(1, Request("g", "b", 6, 0, true));
    assert GetSuffix("f") == "other" && GetSuffix("g") == "other";
    NoneOpen(w);
    AcceptedAdds(w, e);
  }

  lemma BothFinish(w: World)
    requires w == World(Store(map[], 0, 10, {"a", "b"}),
                        map[0 := Conn(Doing, true, "f", "a", 6, 0, 0), 1 := Conn(Doing, true, "g", "b", 6, 0, 0)])
    ensures var e, f := PutsData(0, 6), PutsData(1, 6);
            && Proper(w, e, m => 6) && Proper(Step(w, e), f, m => 6)
            && Step(Step(w, e), f).store.used == 12
            && EnoughSpace(Step(Step(w, e), f).store, 0x7FFF_FFFF_FFFF_FFFF)
  {
  }

  /** Clients that do as they should, a file that does not fit, and 12 bytes used in the end. */
  ghost predicate EndsOver(w: World, events: seq<Event>) {
    && AllProper(w, events, m => 6) && !AllFit(w, events)
    && Run(w, events).store.used == 12
    && EnoughSpace(Run(w, events).store, 0x7FFF_FFFF_FFFF_FFFF)
  }

  lemma OverStill(w: World, e: Event, f: Event, rest: seq<Event>)
    requires Proper(w, e, m => 6) && Proper(Step(w, e), f, m => 6) && EndsOver(Step(Step(w, e), f), rest)
    ensures EndsOver(w, [e, f] + rest)
  {
    TwoEvents(w, e, f, rest, m => 6);
  }

  /** Two uploads of 6 bytes each are accepted for a capacity of 10, and both are finished. */
  lemma OverlapExample()
    ensures EndsOver(World(Store(map[], 0, 10, {}), map[]), [Connect(0), Connect(1)] + TwoUploads())
  {
    var w := World(Store(map[], 0, 10, {}), map[]);
    var w' := BothConnect(w);
    BothUpload(w');
    OverStill(w, Connect(0), Connect(1), TwoUploads());
  }

  lemma BothConnect(w: World) returns (w': World)
    requires w == World(Store(map[], 0, 10, {}), map[])
    ensures w' == Step(Step(w, Connect(0)), Connect(1))
    ensures w' == World(w.store, map[0 := NEW_CONN, 1 := NEW_CONN])
  {
    w' := Step(Step(w, Connect(0)), Connect(1));
  }

  function TwoUploads(): seq<Event> {
    [Puts(0, Request("f", "a", 6, 0, true)), Puts(1, Request("g", "b", 6, 0, true)), PutsData(0, 6), PutsData(1, 6)]
  }

  lemma BothUpload(w: World)
    requires w == World(Store(map[], 0, 10, {}), map[0 := NEW_CONN, 1 := NEW_CONN])
    ensures EndsOver(w, TwoUploads())
  {
    var e, f := Puts(0, Request("f", "a", 6, 0, true)), Puts(1, Request("g", "b", 6, 0, true));
    BothAccepted(w);
    BothData(Step(Step(w, e), f));
    TwoEvents(w, e, f, TwoUploads()[2..], m => 6);
    assert [e, f] + TwoUploads()[2..] == TwoUploads();
  }

  lemma BothData(w: World)
    requires w == World(Store(map[], 0, 10, {"a", "b"}),
                        map[0 := Conn(Doing, true, "f", "a", 6, 0, 0), 1 := Conn(Doing, true, "g", "b", 6, 0, 0)])
    ensures AllProper(w, TwoUploads()[2..], m => 6) && Run(w, TwoUploads()[2..]).store.used == 12
    ensures EnoughSpace(Run(w, TwoUploads()[2..]).store, 0x7FFF_FFFF_FFFF_FFFF)
  {
    var e, f := PutsData(0, 6), PutsData(1, 6);
    BothFinish(w);
    TwoEvents(w, e, f, [], m => 6);
    assert [e, f] + [] == TwoUploads()[2..];
  }

  predicate Deletes(e: Event) {
    e.DeleteFile? || e.DeleteDir?
  }

  lemma {:induction false} PassedStays(w: World, events: seq<Event>)
    requires forall e :: e in events ==> !Deletes(e)
    ensures Run(w, events).store.used >= w.store.used && Run(w, events).store.capacity == w.store.capacity
    decreases |events|
  {
    if events != [] {
      assert events[0] in events;
      PassedStays(Step(w, events[0]), events[1..]);
    }
  }

  /** Once the used capacity has passed the total, it stays so until something is deleted, and
      whatever is uploaded meanwhile, up to half the unsigned range past the total, no request
      for a file that can be created is ever refused for lack of capacity.
   */
  lemma PassedNeverRefuses(w: World, events: seq<Event>, r: Request)
    requires 0 <= w.store.capacity < w.store.used && forall e :: e in events ==> !Deletes(e)
    requires Run(w, events).store.used < 0x1_0000_0000_0000_0000
    requires Run(w, events).store.used - w.store.capacity <= MAX_FILE && r.size < MAX_FILE
    ensures !TaskOutcome(Run(w, events).store, r).NoCapacity?
  {
    PassedStays(w, events);
    EnoughSpaceIff(Run(w, events).store, r.size);
  }
}
