/** Where the rows of a user's table come from: every row answers a request, and every upload
    whose bytes arrive gets its row.
 */
module Records {
  import opened FileServer
  import opened MyDB
  import opened Sums

  // ---------- how a request is answered ----------

  /** How an upload request is answered, in terms of the name, the table and the running
      uploads: a name ending in ".d" fails; then the free space decides; then a hash that some
      row has (the empty one: any directory) is known; then a missing hash, or one that is
      being uploaded, fails; then a size that cannot be created leaves a file behind.
   */
  lemma OutcomeIff(w: World, r: Request, sizeOf: string -> nat)
    requires WorldOk(w, sizeOf) && w.store.used <= w.store.capacity < 0x1_0000_0000_0000_0000
    ensures var s, o := w.store, TaskOutcome(w.store, r);
            var named, fits := !EndsInD(r.name), s.used + r.size <= s.capacity;
            var known := HasRow(s.rows, r.md5) || (r.md5 == "" && exists d :: IsDirRow(s.rows, d));
            var busy := r.md5 == "" || HasUpload(w.conns, r.md5);
            && (o.Failed? <==> !named || (fits && !known && busy))
            && (o.NoCapacity? <==> named && !fits)
            && (o.Quick? <==> named && fits && known)
            && (o.Leaked? <==> named && fits && !known && !busy && !(0 < r.size < MAX_FILE))
            && (o.Fresh? <==> named && fits && !known && !busy && 0 < r.size < MAX_FILE)
  {
    var s := w.store;
    SuffixIsDir(r.name);
    SpaceLeft(s, r.size);
    KnownIff(s.rows, r.md5);
    if r.md5 != "" && !HasRow(s.rows, r.md5) { BusyIff(w, r.md5); }
  }

  lemma SpaceLeft(s: Store, size: nat)
    requires UsedOk(s) && s.used <= s.capacity < 0x1_0000_0000_0000_0000
    ensures EnoughSpace(s, size) <==> s.used + size <= s.capacity
  {
  }

  lemma KnownIff(rows: Table, m: string)
    requires ContentOk(rows)
    ensures HashKnown(rows, m) <==> HasRow(rows, m) || (m == "" && exists d :: IsDirRow(rows, d))
  {
    if HashKnown(rows, m) {
      var id :| id in rows && rows[id].md5 == m;
      if rows[id].IsDir() { assert IsDirRow(rows, id); }
    }
    RowMeansKnown(rows, m);
    if d :| m == "" && IsDirRow(rows, d) { assert rows[d].md5 == m; }
  }

  lemma BusyIff(w: World, m: string)
    requires Owned(w) && !HasRow(w.store.rows, m)
    ensures m in w.store.blobs <==> HasUpload(w.conns, m)
  {
  }

  // ---------- every row answers a request ----------

  /** Some request was for such a file. */
  ghost predicate RequestedBy(past: seq<Event>, name: string, md5: string, size: nat, parent: nat) {
    exists i :: 0 <= i < |past| && past[i].Puts?
                && past[i].r.name == name && past[i].r.md5 == md5 && past[i].r.size == size && past[i].r.parent == parent
  }

  ghost predicate MadeBy(past: seq<Event>, name: string, parent: nat) {
    exists i :: 0 <= i < |past| && past[i] == MakeDir(name, parent)
  }

  ghost predicate RowTraced(past: seq<Event>, row: Row) {
    if row.IsDir() then MadeBy(past, row.name, row.parent) && row.md5 == "" && row.size == 0
    else RequestedBy(past, row.name, row.md5, row.size, row.parent) && row.suffix == GetSuffix(row.name)
  }

  ghost predicate Traced(past: seq<Event>, w: World) {
    && (forall id :: id in w.store.rows ==> RowTraced(past, w.store.rows[id]))
    && (forall c :: c in w.conns && (w.conns[c].isPut || w.conns[c].status == Doing) ==> ConnTraced(past, w.conns[c]))
  }

  ghost predicate ConnTraced(past: seq<Event>, k: Conn) {
    RequestedBy(past, k.name, k.md5, k.size, k.parent) && GetSuffix(k.name) != "d"
  }

  lemma StillTraced(past: seq<Event>, e: Event)
    ensures forall name, md5, size, parent ::
              RequestedBy(past, name, md5, size, parent) ==> RequestedBy(past + [e], name, md5, size, parent)
    ensures forall name, parent :: MadeBy(past, name, parent) ==> MadeBy(past + [e], name, parent)
  {
    var more := past + [e];
    assert forall i :: 0 <= i < |past| ==> more[i] == past[i];
  }

  lemma NowTraced(past: seq<Event>, e: Event)
    ensures e.Puts? ==> RequestedBy(past + [e], e.r.name, e.r.md5, e.r.size, e.r.parent)
    ensures e.MakeDir? ==> MadeBy(past + [e], e.name, e.parent)
  {
    assert (past + [e])[|past|] == e;
  }

  lemma AddedTraced(past: seq<Event>, rows: Table, more: Table, id: nat, name: string, md5: string, size: nat,
                    parent: nat, suffix: string)
    requires forall x :: x in rows ==> RowTraced(past, rows[x])
    requires RowAdded(rows, more, id, name, md5, size, parent, suffix)
    requires if suffix == "d" then MadeBy(past, name, parent) && md5 == "" && size == 0
             else RequestedBy(past, name, md5, size, parent) && suffix == GetSuffix(name)
    ensures forall x :: x in more ==> RowTraced(past, more[x])
  {
    forall x | x in more ensures RowTraced(past, more[x]) {
      if x != id { assert x in rows; }
    }
  }

  lemma FewerRows(w: World, e: Event)
    requires e.DeleteFile? || e.DeleteDir? || e.Connect? || e.PutsFinish? || e.Disconnect?
    ensures forall x :: x in Step(w, e).store.rows ==> x in w.store.rows && Step(w, e).store.rows[x] == w.store.rows[x]
  {
  }

  lemma TracedPuts(past: seq<Event>, w: World, c: nat, r: Request)
    requires Traced(past, w)
    ensures Traced(past + [Puts(c, r)], Step(w, Puts(c, r)))
  {
    var more, w' := past + [Puts(c, r)], Step(w, Puts(c, r));
    StillTraced(past, Puts(c, r));
    NowTraced(past, Puts(c, r));
    if Taken(w, c, r) && TaskOutcome(w.store, r).Quick? {
      InsertAddsRow(w.store, r.name, r.md5, r.size, r.parent, GetSuffix(r.name));
      assert forall x :: x in w.store.rows ==> RowTraced(more, w.store.rows[x]);
      AddedTraced(more, w.store.rows, w'.store.rows, NextId(w.store.rows), r.name, r.md5, r.size, r.parent, GetSuffix(r.name));
    }
  }

  lemma TracedData(past: seq<Event>, w: World, c: nat, n: nat)
    requires Traced(past, w)
    ensures Traced(past + [PutsData(c, n)], Step(w, PutsData(c, n)))
  {
    var more, w' := past + [PutsData(c, n)], Step(w, PutsData(c, n));
    StillTraced(past, PutsData(c, n));
    if c in w.conns && w.conns[c].status == Doing && w'.store != w.store {
      var k := w.conns[c];
      InsertAddsRow(w.store, k.name, k.md5, k.size, k.parent, GetSuffix(k.name));
      assert forall x :: x in w.store.rows ==> RowTraced(more, w.store.rows[x]);
      AddedTraced(more, w.store.rows, w'.store.rows, NextId(w.store.rows), k.name, k.md5, k.size, k.parent, GetSuffix(k.name));
    }
  }

  lemma TracedDir(past: seq<Event>, w: World, name: string, parent: nat)
    requires Traced(past, w)
    ensures Traced(past + [MakeDir(name, parent)], Step(w, MakeDir(name, parent)))
  {
    var more, w' := past + [MakeDir(name, parent)], Step(w, MakeDir(name, parent));
    StillTraced(past, MakeDir(name, parent));
    NowTraced(past, MakeDir(name, parent));
    InsertAddsRow(w.store, name, "", 0, parent, "d");
    assert forall x :: x in w.store.rows ==> RowTraced(more, w.store.rows[x]);
    AddedTraced(more, w.store.rows, w'.store.rows, NextId(w.store.rows), name, "", 0, parent, "d");
  }

  lemma TracedStep(past: seq<Event>, w: World, e: Event)
    requires Traced(past, w)
    ensures Traced(past + [e], Step(w, e))
  {
    match e
    case Puts(c, r) => TracedPuts(past, w, c, r);
    case PutsData(c, n) => TracedData(past, w, c, n);
    case MakeDir(name, parent) => TracedDir(past, w, name, parent);
    case _ =>
      StillTraced(past, e);
      FewerRows(w, e);
  }

  lemma {:induction false} TracedRun(past: seq<Event>, w: World, events: seq<Event>)
    requires Traced(past, w)
    ensures Traced(past + events, Run(w, events))
    decreases |events|
  {
    if events == [] {
      assert past + events == past;
    } else {
      TracedStep(past, w, events[0]);
      TracedRun(past + [events[0]], Step(w, events[0]), events[1..]);
      assert past + [events[0]] + events[1..] == past + events;
    }
  }

  /** Over any run from an empty store, whatever the clients do: every file row has the name,
      hash, size and folder that some request asked for and the suffix of that name, and every
      directory row the name and folder of a request to make it.
   */
  lemma RowsAreRequested(capacity: nat, events: seq<Event>, id: nat)
    ensures var rows := Run(World(Store(map[], 0, capacity, {}), map[]), events).store.rows;
            id in rows ==>
              if rows[id].IsDir() then MadeBy(events, rows[id].name, rows[id].parent)
              else RequestedBy(events, rows[id].name, rows[id].md5, rows[id].size, rows[id].parent)
                   && rows[id].suffix == GetSuffix(rows[id].name)
  {
    var start := World(Store(map[], 0, capacity, {}), map[]);
    TracedRun([], start, events);
    assert [] + events == events;
  }

  // ---------- every upload gets its row ----------

  function DataEvents(c: nat, lens: seq<nat>): (events: seq<Event>)
    ensures |events| == |lens| && forall i :: 0 <= i < |lens| ==> events[i] == PutsData(c, lens[i])
  {
    seq(|lens|, i requires 0 <= i < |lens| => PutsData(c, lens[i]))
  }

  function Bytes(lens: seq<nat>): nat {
    if lens == [] then 0 else lens[0] + Bytes(lens[1..])
  }

  /** Chunks that fill the file, in any sizes, give a running upload exactly one row, with what
      was asked for, and nothing else changes in the store.
   */
  lemma {:induction false} ChunksRecord(w: World, c: nat, lens: seq<nat>)
    requires c in w.conns && w.conns[c].status == Doing && w.conns[c].handled < w.conns[c].size < MAX_FILE
    requires w.conns[c].handled + Bytes(lens) == w.conns[c].size && forall i :: 0 <= i < |lens| ==> lens[i] > 0
    ensures var w' := Run(w, DataEvents(c, lens));
            Recorded(w.store, w'.store, w.conns[c]) && c in w'.conns && w'.conns[c].status == Fin
    decreases |lens|
  {
    var k, w1 := w.conns[c], Step(w, PutsData(c, lens[0]));
    DataEffect(w, c, lens[0]);
    assert DataEvents(c, lens)[1..] == DataEvents(c, lens[1..]);
    if k.handled + lens[0] == k.size {
      NoBytes(lens[1..]);
      assert DataEvents(c, lens[1..]) == [];
    } else {
      ChunksRecord(w1, c, lens[1..]);
    }
  }

  lemma NoBytes(lens: seq<nat>)
    requires Bytes(lens) == 0 && forall i :: 0 <= i < |lens| ==> lens[i] > 0
    ensures lens == []
  {
  }

  /** From the request to the row: new content of a proper size, asked for on a waiting
      connection and sent in full, is recorded exactly as asked for.
   */
  lemma UploadRecords(w: World, c: nat, r: Request, lens: seq<nat>)
    requires Taken(w, c, r) && TaskOutcome(w.store, r).Fresh?
    requires Bytes(lens) == r.size && forall i :: 0 <= i < |lens| ==> lens[i] > 0
    ensures var s' := Run(w, [Puts(c, r)] + DataEvents(c, lens)).store;
            && RowAdded(w.store.rows, s'.rows, NextId(w.store.rows), r.name, r.md5, r.size, r.parent, GetSuffix(r.name))
            && s'.used == w.store.used + r.size && s'.blobs == w.store.blobs + {r.md5}
  {
    RequestEffect(w, c, r);
    var w1 := Step(w, Puts(c, r));
    ChunksRecord(w1, c, lens);
    assert ([Puts(c, r)] + DataEvents(c, lens))[1..] == DataEvents(c, lens);
  }
}
