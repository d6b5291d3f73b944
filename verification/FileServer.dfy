/** Many connections of one user at work on the same store: uploading, uploading what is
    there already, finishing, breaking off, and deleting. Handlers are atomic; database and
    disk calls succeed. At issue is who owns each content file on disk.
 */
module FileServer {
  import opened MyDB
  import opened Options
  import opened Sums

  datatype Status = Start | Doing | Fin | Close

  /** A long-task connection; isPut tells whether an upload task has been set on it. */
  datatype Conn = Conn(status: Status, isPut: bool, name: string, md5: string, size: nat, handled: nat, parent: nat) {
    /** Closing such a connection removes its content file. */
    predicate Unfinished() {
      isPut && handled < size
    }
  }

  /** Sizes are unsigned on the wire and signed for the file system. */
  const MAX_FILE := 0x8000_0000_0000_0000

  const NEW_CONN := Conn(Start, false, "", "", 0, 0, 0)

  datatype World = World(store: Store, conns: map<nat, Conn>)

  /** An upload request: what the client says of the file, and whether the user is known. */
  datatype Request = Request(name: string, md5: string, size: nat, parent: nat, known: bool)

  datatype Event =
    | Connect(c: nat)
    | Puts(c: nat, r: Request)
    | PutsData(c: nat, n: nat)
    | PutsFinish(c: nat)
    | Disconnect(c: nat)
    | MakeDir(name: string, parent: nat)
    | DeleteFile(id: nat)
    | DeleteDir(id: nat)

  /** What follows the last dot of a name; "other" without a dot or with nothing after it. */
  function GetSuffix(name: string): string {
    if name == "" then ""
    else
      var rest := AfterLastDot(name, |name|);
      if rest.None? || rest.value == "" then "other" else rest.value
  }

  function AfterLastDot(name: string, n: nat): Option<string>
    requires n <= |name|
  {
    if n == 0 then None
    else if name[n - 1] == '.' then Some(name[n..])
    else AfterLastDot(name, n - 1)
  }

  predicate EndsInD(name: string) {
    |name| >= 2 && name[|name| - 2] == '.' && name[|name| - 1] == 'd'
  }

  lemma {:induction false} AfterLastDotIs(base: string, rest: string, n: nat)
    requires n <= |rest| && '.' !in rest
    ensures var name := base + "." + rest; AfterLastDot(name, |base| + 1 + n) == Some(rest)
    decreases n
  {
    var name := base + "." + rest;
    if n == 0 {
      assert name[|base|] == '.' && name[|base| + 1..] == rest;
    } else {
      assert name[|base| + n] == rest[n - 1] && rest[n - 1] in rest;
      AfterLastDotIs(base, rest, n - 1);
    }
  }

  lemma {:induction false} NoDot(name: string, n: nat)
    requires n <= |name| && '.' !in name[..n]
    ensures AfterLastDot(name, n) == None
    decreases n
  {
    if n > 0 {
      assert name[..n][n - 1] in name[..n] && name[..n] == name[..n - 1] + [name[n - 1]];
      NoDot(name, n - 1);
    }
  }

  /** The type of a file by its name: what stands behind the last dot, if that is anything. */
  lemma SuffixIs(base: string, rest: string)
    requires '.' !in rest
    ensures GetSuffix(base + "." + rest) == if rest == "" then "other" else rest
    ensures GetSuffix(rest) == if rest == "" then "" else "other"
  {
    AfterLastDotIs(base, rest, |rest|);
    assert rest[..|rest|] == rest;
    NoDot(rest, |rest|);
  }

  /** So exactly the names ending in ".d" are taken for directories. */
  lemma SuffixIsDir(name: string)
    ensures GetSuffix(name) == "d" <==> EndsInD(name)
  {
    if name != "" && name[|name| - 1] == '.' {
    } else if |name| >= 2 && name[|name| - 2] == '.' {
      var base, rest := name[..|name| - 2], name[|name| - 1..];
      assert name == base + "." + rest;
      SuffixIs(base, rest);
    } else if |name| >= 2 {
      ShortSuffix(name, |name| - 2);
      assert AfterLastDot(name, |name| - 1) == AfterLastDot(name, |name| - 2);
      assert AfterLastDot(name, |name|) == AfterLastDot(name, |name| - 1);
    } else if name != "" {
      NoDot(name, 1);
    }
  }

  lemma {:induction false} ShortSuffix(name: string, n: nat)
    requires n + 2 <= |name|
    ensures var r := AfterLastDot(name, n); r.None? || |r.value| >= 2
    decreases n
  {
    if n > 0 && name[n - 1] != '.' { ShortSuffix(name, n - 1); }
  }

  // ---------- creating an upload task ----------

  /** Leaked: the content file was created, but it cannot be given its size (one past the
      signed range) or cannot be mapped (an empty one), and it stays.
   */
  datatype Outcome = Failed | NoCapacity | Quick | Fresh | Leaked

  predicate EnoughSpace(s: Store, size: nat) {
    (s.capacity - s.used) % 0x1_0000_0000_0000_0000 >= size
  }

  predicate HashKnown(rows: Table, md5: string) {
    exists id :: id in rows && rows[id].md5 == md5
  }

  /** Without a hash the file to create would be the user's directory, which is there. */
  function TaskOutcome(s: Store, r: Request): Outcome {
    if GetSuffix(r.name) == "d" then Failed
    else if !EnoughSpace(s, r.size) then NoCapacity
    else if HashKnown(s.rows, r.md5) then Quick
    else if r.md5 == "" || r.md5 in s.blobs then Failed
    else if r.size == 0 || r.size >= MAX_FILE then Leaked
    else Fresh
  }

  // ---------- the handlers as a step function ----------

  /** The request reaches a connection that waits for one, from a known user. */
  predicate Taken(w: World, c: nat, r: Request) {
    c in w.conns && w.conns[c].status == Start && r.known
  }

  ghost function InsertFile(s: Store, k: Conn): Store {
    Insert(s, k.name, k.md5, k.size, k.parent, GetSuffix(k.name))
  }

  ghost function Step(w: World, e: Event): World {
    var s, conns := w.store, w.conns;
    match e
    case Connect(c) => if c in conns then w else w.(conns := conns[c := NEW_CONN])
    case Puts(c, r) =>
      if !Taken(w, c, r) then w
      else (match TaskOutcome(s, r)
            case Quick =>
              var k := Conn(Fin, true, r.name, r.md5, r.size, r.size, r.parent);
              World(InsertFile(s, k), conns[c := k])
            case Fresh =>
              World(s.(blobs := s.blobs + {r.md5}),
                    conns[c := Conn(Doing, true, r.name, r.md5, r.size, 0, r.parent)])
            case Leaked => w.(store := s.(blobs := s.blobs + {r.md5}))
            case _ => w)
    case PutsData(c, n) =>
      if c !in conns || conns[c].status != Doing then w
      else
        var k := conns[c];
        if k.handled > (k.size - n) % 0x1_0000_0000_0000_0000 then w
        else if k.handled + n == k.size then
          World(InsertFile(s, k), conns[c := k.(handled := k.size, status := Fin)])
        else w.(conns := conns[c := k.(handled := k.handled + n)])
    case PutsFinish(c) =>
      if c in conns && conns[c].status == Fin then w.(conns := conns[c := conns[c].(status := Close)]) else w
    case Disconnect(c) =>
      if c !in conns then w
      else World(if conns[c].Unfinished() then s.(blobs := s.blobs - {conns[c].md5}) else s, conns - {c})
    case MakeDir(name, parent) => w.(store := Insert(s, name, "", 0, parent, "d"))
    case DeleteFile(id) =>
      if id in s.rows && !s.rows[id].IsDir() then w.(store := Without(s, {id})) else w
    case DeleteDir(id) => w.(store := DirDeleted(s, id))
  }

  ghost function Run(w: World, events: seq<Event>): World
    decreases |events|
  {
    if events == [] then w else Run(Step(w, events[0]), events[1..])
  }

  // ---------- what the handlers do, field by field ----------

  /** The connection awaits, or has, the file of the request. */
  predicate Holds(k: Conn, r: Request) {
    k.isPut && k.name == r.name && k.md5 == r.md5 && k.size == r.size && k.parent == r.parent
  }

  /** Only connection c may have changed. */
  predicate OthersKept(was: map<nat, Conn>, now: map<nat, Conn>, c: nat) {
    now.Keys == was.Keys && forall d :: d in was && d != c ==> now[d] == was[d]
  }

  /** A file row was added for the connection's file, and nothing else happened to the store. */
  ghost predicate Recorded(s: Store, s': Store, k: Conn) {
    && RowAdded(s.rows, s'.rows, NextId(s.rows), k.name, k.md5, k.size, k.parent, GetSuffix(k.name))
    && s'.used == s.used + k.size && s'.capacity == s.capacity && s'.blobs == s.blobs
  }

  ghost predicate Requested(w: World, w': World, c: nat, r: Request) {
    var s, s' := w.store, w'.store;
    if !(c in w.conns && w.conns[c].status == Start && r.known) || TaskOutcome(s, r).Failed? || TaskOutcome(s, r).NoCapacity? then w' == w
    else
      && OthersKept(w.conns, w'.conns, c)
      && match TaskOutcome(s, r)
         case Quick =>
           && Holds(w'.conns[c], r) && w'.conns[c].status == Fin && w'.conns[c].handled == r.size
           && Recorded(s, s', w'.conns[c])
         case Fresh =>
           && Holds(w'.conns[c], r) && w'.conns[c].status == Doing && w'.conns[c].handled == 0
           && s'.rows == s.rows && s'.used == s.used && s'.blobs == s.blobs + {r.md5}
         case _ =>
           w'.conns == w.conns && s'.rows == s.rows && s'.used == s.used && s'.blobs == s.blobs + {r.md5}
  }

  lemma RequestEffect(w: World, c: nat, r: Request)
    ensures Requested(w, Step(w, Puts(c, r)), c, r)
  {
    InsertAddsRow(w.store, r.name, r.md5, r.size, r.parent, GetSuffix(r.name));
  }

  ghost predicate Arrived(w: World, w': World, c: nat, n: nat) {
    if !(c in w.conns && w.conns[c].status == Doing && w.conns[c].handled <= (w.conns[c].size - n) % 0x1_0000_0000_0000_0000)
    then w' == w
    else
      var k := w.conns[c];
      && OthersKept(w.conns, w'.conns, c) && w'.conns[c].handled == k.handled + n
      && w'.conns[c].name == k.name && w'.conns[c].md5 == k.md5 && w'.conns[c].size == k.size
      && w'.conns[c].parent == k.parent && w'.conns[c].isPut == k.isPut
      && if k.handled + n == k.size then w'.conns[c].status == Fin && Recorded(w.store, w'.store, k)
         else w'.conns[c].status == Doing && w'.store == w.store
  }

  lemma DataEffect(w: World, c: nat, n: nat)
    ensures Arrived(w, Step(w, PutsData(c, n)), c, n)
  {
    if c in w.conns {
      var k := w.conns[c];
      InsertAddsRow(w.store, k.name, k.md5, k.size, k.parent, GetSuffix(k.name));
    }
  }

  /** The file's row went, with its size, and its content unless another row has its hash. */
  ghost predicate FileGone(s: Store, s': Store, id: nat)
    requires id in s.rows
  {
    && s'.rows == s.rows - {id} && s'.used == s.used - s.rows[id].size
    && s'.blobs == s.blobs - if HasRow(s.rows - {id}, s.rows[id].md5) then {} else {s.rows[id].md5}
  }

  ghost predicate OtherEffect(w: World, w': World, e: Event) {
    var s, s' := w.store, w'.store;
    match e
    case Connect(c) =>
      s' == s && w'.conns.Keys == w.conns.Keys + {c} && (forall d :: d in w.conns ==> w'.conns[d] == w.conns[d])
      && (c !in w.conns ==> w'.conns[c].status == Start && !w'.conns[c].isPut)
    case PutsFinish(c) =>
      s' == s && OthersKept(w.conns, w'.conns, c)
      && (c in w.conns ==> w'.conns[c] == w.conns[c].(status := if w.conns[c].status == Fin then Close else w.conns[c].status))
    case MakeDir(name, parent) =>
      && w'.conns == w.conns && RowAdded(s.rows, s'.rows, NextId(s.rows), name, "", 0, parent, "d")
      && s'.used == s.used && s'.blobs == s.blobs
    case DeleteFile(id) =>
      && w'.conns == w.conns
      && (!IsFileRow(s.rows, id) ==> s' == s)
      && (IsFileRow(s.rows, id) ==> FileGone(s, s', id))
    case DeleteDir(id) =>
      w'.conns == w.conns && (IsDirRow(s.rows, id) ==> s'.rows == s.rows - Subtree(s.rows, id))
    case _ => true
  }

  predicate IsFileRow(rows: Table, id: nat) {
    id in rows && !rows[id].IsDir()
  }

  // ---------- the handlers as methods ----------

  class Server {
    const db: MyDB
    var conns: map<nat, Conn>

    ghost function Abs(): World
      reads this, db
    {
      World(db.Value(), conns)
    }

    constructor (capacity: nat)
      ensures Abs() == World(Store(map[], 0, capacity, {}), map[]) && fresh(db)
    {
      db := new MyDB(capacity);
      conns := map[];
    }

    /** Decides an upload request; creates the content file of a new upload. */
    method CreateTask(r: Request) returns (o: Outcome)
      requires db.capacity < 0x1_0000_0000_0000_0000
      modifies db
      ensures o == TaskOutcome(old(db.Value()), r)
      ensures db.Value() == if o.Fresh? || o.Leaked? then old(db.Value()).(blobs := old(db.blobs) + {r.md5})
                            else old(db.Value())
    {
      if GetSuffix(r.name) == "d" {
        return Failed;
      }
      var enough := db.GetIsEnoughSpace(r.size);
      if !enough {
        return NoCapacity;
      }
      var exist := db.GetFileExist(r.md5);
      if exist {
        return Quick;
      }
      if r.md5 == "" || r.md5 in db.blobs {
        return Failed;
      }
      db.blobs := db.blobs + {r.md5};
      o := if r.size == 0 || r.size >= MAX_FILE then Leaked else Fresh;
    }

    /** An upload request. Known content gets its row at once, with what the client says of
        the file; new content is awaited on the connection under the same particulars.
     */
    method FirstCheck(c: nat, r: Request)
      requires db.capacity < 0x1_0000_0000_0000_0000
      modifies this, db
      ensures Abs() == Step(old(Abs()), Puts(c, r))
      ensures Requested(old(Abs()), Abs(), c, r)
    {
      RequestEffect(Abs(), c, r);
      if c !in conns || conns[c].status != Start || !r.known {
        return;
      }
      var o := CreateTask(r);
      if o.Quick? {
        conns := conns[c := Conn(Fin, true, r.name, r.md5, r.size, r.size, r.parent)];
        var id := db.InsertFileData(r.name, r.md5, r.size, r.parent, GetSuffix(r.name));
      } else if o.Fresh? {
        conns := conns[c := Conn(Doing, true, r.name, r.md5, r.size, 0, r.parent)];
      }
    }

    /** A chunk of n bytes. The one that completes the file gives it its row, with what the
        connection holds of it.
     */
    method RecvFileData(c: nat, n: nat)
      modifies this, db
      ensures Abs() == Step(old(Abs()), PutsData(c, n))
      ensures Arrived(old(Abs()), Abs(), c, n)
    {
      DataEffect(Abs(), c, n);
      if c !in conns || conns[c].status != Doing {
        return;
      }
      var k := conns[c];
      if k.handled > (k.size - n) % 0x1_0000_0000_0000_0000 {
        return;
      }
      k := k.(handled := k.handled + n);
      if k.handled == k.size {
        k := k.(status := Fin);
        var id := db.InsertFileData(k.name, k.md5, k.size, k.parent, GetSuffix(k.name));
      }
      conns := conns[c := k];
    }

    method CloseCon(c: nat)
      modifies this, db
      ensures Abs() == Step(old(Abs()), Disconnect(c))
      ensures conns == old(conns) - {c} && db.rows == old(db.rows) && db.used == old(db.used)
      ensures db.blobs == old(db.blobs) - if c in old(conns) && old(conns)[c].Unfinished() then {old(conns)[c].md5} else {}
    {
      if c !in conns {
        return;
      }
      if conns[c].Unfinished() {
        db.blobs := db.blobs - {conns[c].md5};
      }
      conns := conns - {c};
    }

    /** Any sequence of requests that keeps the world good. */
    method Serve(events: seq<Event>, sizeOf: string -> nat)
      requires WorldOk(Abs(), sizeOf) && Abs().store.capacity < 0x1_0000_0000_0000_0000
      requires AllProper(Abs(), events, sizeOf)
      modifies this, db
      ensures Abs() == Run(old(Abs()), events) && WorldOk(Abs(), sizeOf)
    {
      var i := 0;
      while i < |events|
        invariant 0 <= i <= |events|
        invariant WorldOk(Abs(), sizeOf) && db.capacity < 0x1_0000_0000_0000_0000
        invariant AllProper(Abs(), events[i..], sizeOf)
        invariant Run(Abs(), events[i..]) == Run(old(Abs()), events)
      {
        assert events[i..][0] == events[i] && events[i..][1..] == events[i + 1..];
        StepOk(Abs(), events[i], sizeOf);
        Handle(events[i]);
        i := i + 1;
      }
    }

    method Handle(e: Event)
      requires db.Valid() && db.capacity < 0x1_0000_0000_0000_0000
      requires e.DeleteDir? ==> !Looped(db.rows, e.id)
      modifies this, db
      ensures Abs() == Step(old(Abs()), e)
      ensures db.capacity == old(db.capacity)
      ensures OtherEffect(old(Abs()), Abs(), e)
    {
      match e
      case Connect(c) =>
        if c !in conns {
          conns := conns[c := NEW_CONN];
        }
      case Puts(c, r) => FirstCheck(c, r);
      case PutsData(c, n) => RecvFileData(c, n);
      case PutsFinish(c) =>
        if c in conns && conns[c].status == Fin {
          conns := conns[c := conns[c].(status := Close)];
        }
      case Disconnect(c) => CloseCon(c);
      case MakeDir(name, parent) => var id := db.InsertFileData(name, "", 0, parent, "d");
      case DeleteFile(id) =>
        if IsFileRow(db.rows, id) { WithoutFile(db.Value(), id); }
        var ok := db.DeleteOneFile(id);
      case DeleteDir(id) => var ok := db.DeleteOneDir(id);
    }
  }

  // ---------- the invariant ----------

  ghost predicate ConnOk(k: Conn) {
    && (k.status == Start ==> !k.isPut)
    && (k.status == Doing ==> k.isPut && k.handled < k.size < MAX_FILE)
    && (k.status == Fin || k.status == Close ==> k.isPut && k.handled == k.size)
    && (k.isPut ==> k.md5 != "" && GetSuffix(k.name) != "d")
  }

  /** An unfinished upload alone owns its content file; every content file is owned by a row
      or by an unfinished upload.
   */
  ghost predicate Owned(w: World) {
    && (forall c :: c in w.conns && w.conns[c].Unfinished() ==>
          w.conns[c].md5 in w.store.blobs && !HasRow(w.store.rows, w.conns[c].md5))
    && (forall c, d :: c in w.conns && d in w.conns && c != d && w.conns[c].Unfinished() && w.conns[d].Unfinished() ==>
          w.conns[c].md5 != w.conns[d].md5)
    && (forall m :: m in w.store.blobs ==> HasRow(w.store.rows, m) || HasUpload(w.conns, m))
  }

  ghost predicate HasUpload(conns: map<nat, Conn>, m: string) {
    exists c :: c in conns && conns[c].Unfinished() && conns[c].md5 == m
  }

  /** All sizes are those of the contents with the hash. */
  ghost predicate Sized(w: World, sizeOf: string -> nat) {
    && (forall id :: id in w.store.rows && !w.store.rows[id].IsDir() ==> w.store.rows[id].size == sizeOf(w.store.rows[id].md5))
    && (forall c :: c in w.conns && w.conns[c].isPut ==> w.conns[c].size == sizeOf(w.conns[c].md5))
  }

  ghost predicate WorldOk(w: World, sizeOf: string -> nat) {
    && StoreOk(w.store) && Owned(w) && Sized(w, sizeOf)
    && forall c :: c in w.conns ==> ConnOk(w.conns[c])
  }

  /** What clients are held to: an accepted request states the size of the content with its
      hash, has a hash, and is for a file that can be created; chunks are no longer than the
      file; a directory request that names a file names one whose row nobody would miss.
      Whether the directory a file goes to still exists does not matter.
   */
  ghost predicate Sensible(w: World, e: Event, sizeOf: string -> nat) {
    match e
    case Puts(c, r) =>
      Taken(w, c, r) ==> (match TaskOutcome(w.store, r)
                          case Quick => r.md5 != "" && r.size == sizeOf(r.md5)
                          case Fresh => r.size == sizeOf(r.md5)
                          case Leaked => false
                          case _ => true)
    case PutsData(c, n) => c in w.conns && w.conns[c].status == Doing ==> n <= w.conns[c].size
    case DeleteDir(id) => id in w.store.rows && !w.store.rows[id].IsDir() ==> RowSpare(w.store.rows, id)
    case _ => true
  }

  /** A file row that can be dropped with nothing else done: it goes with what is below it, or
      it is empty and another row keeps the content file.
   */
  ghost predicate RowSpare(rows: Table, id: nat)
    requires id in rows
  {
    id in Beneath(rows, id) || (rows[id].size == 0 && HasRow(rows - Subtree(rows, id), rows[id].md5))
  }

  /** And the handler returns. */
  ghost predicate Proper(w: World, e: Event, sizeOf: string -> nat) {
    Sensible(w, e, sizeOf) && (e.DeleteDir? ==> !Looped(w.store.rows, e.id))
  }

  ghost predicate AllProper(w: World, events: seq<Event>, sizeOf: string -> nat)
    decreases |events|
  {
    events == [] || (Proper(w, events[0], sizeOf) && AllProper(Step(w, events[0]), events[1..], sizeOf))
  }

  // ---------- every handler keeps it ----------

  lemma HasRowInsert(s: Store, name: string, md5: string, size: nat, parent: nat, suffix: string, m: string)
    ensures var s' := Insert(s, name, md5, size, parent, suffix);
            HasRow(s'.rows, m) <==> HasRow(s.rows, m) || (suffix != "d" && m == md5)
  {
    var id, rows := NextId(s.rows), Insert(s, name, md5, size, parent, suffix).rows;
    if HasRow(s.rows, m) {
      var x :| x in s.rows && !s.rows[x].IsDir() && s.rows[x].md5 == m;
      assert x in rows && rows[x] == s.rows[x];
    }
    if suffix != "d" && m == md5 {
      assert id in rows && !rows[id].IsDir() && rows[id].md5 == m;
    }
    if HasRow(rows, m) {
      var x :| x in rows && !rows[x].IsDir() && rows[x].md5 == m;
      if x != id { assert x in s.rows && s.rows[x] == rows[x]; }
    }
  }

  /** A row for content that is on disk, with the right size, under any parent id. */
  lemma InsertKeepsStore(s: Store, k: Conn, conns: map<nat, Conn>, sizeOf: string -> nat)
    requires StoreOk(s) && Sized(World(s, conns), sizeOf)
    requires k.md5 in s.blobs && k.md5 != "" && k.size == sizeOf(k.md5)
    requires GetSuffix(k.name) != "d"
    ensures StoreOk(InsertFile(s, k)) && Sized(World(InsertFile(s, k), conns), sizeOf)
  {
    InsertUsed(s, k.name, k.md5, k.size, k.parent, GetSuffix(k.name));
    var id, rows := NextId(s.rows), InsertFile(s, k).rows;
    assert forall x :: x in rows && x != id ==> x in s.rows && rows[x] == s.rows[x];
    SizedContentOk(rows, sizeOf);
  }

  /** Rows sized by their hashes, with hashes on files only, are in order. */
  lemma SizedContentOk(rows: Table, sizeOf: string -> nat)
    requires forall x :: x in rows ==> if rows[x].IsDir() then rows[x].md5 == "" && rows[x].size == 0
                                       else rows[x].md5 != "" && rows[x].size == sizeOf(rows[x].md5)
    ensures ContentOk(rows)
  {
  }

  lemma MakeDirKeepsStore(s: Store, name: string, parent: nat)
    requires StoreOk(s)
    ensures StoreOk(Insert(s, name, "", 0, parent, "d"))
  {
    InsertUsed(s, name, "", 0, parent, "d");
    var id, s' := NextId(s.rows), Insert(s, name, "", 0, parent, "d");
    assert s'.rows.Keys == s.rows.Keys + {id};
    DirKeepsContent(s.rows, s'.rows, id);
    forall x | x in s'.rows && !s'.rows[x].IsDir() ensures s'.rows[x].md5 in s'.blobs {
      assert x in s.rows && s'.rows[x] == s.rows[x];
    }
  }

  lemma DirKeepsContent(rows: Table, more: Table, id: nat)
    requires ContentOk(rows) && more.Keys == rows.Keys + {id} && id !in rows
    requires forall x :: x in rows ==> more[x] == rows[x]
    requires more[id].IsDir() && more[id].md5 == "" && more[id].size == 0
    ensures ContentOk(more)
  {
    forall a, b | a in more && b in more && more[a].md5 == more[b].md5 ensures more[a].size == more[b].size {
      assert a != id ==> a in rows && more[a] == rows[a];
      assert b != id ==> b in rows && more[b] == rows[b];
    }
  }

  /** A row is added for hash m, whose content file is there and no longer belongs to an
      unfinished upload.
   */
  lemma OwnedInsert(w: World, w': World, m: string)
    requires Owned(w)
    requires w'.store.blobs == w.store.blobs
    requires forall x :: HasRow(w'.store.rows, x) <==> HasRow(w.store.rows, x) || x == m
    requires forall c :: c in w'.conns && w'.conns[c].Unfinished() ==>
               c in w.conns && w.conns[c] == w'.conns[c] && w'.conns[c].md5 != m
    requires forall c :: c in w.conns && w.conns[c].Unfinished() && w.conns[c].md5 != m ==>
               c in w'.conns && w'.conns[c] == w.conns[c]
    ensures Owned(w')
  {
    forall x | x in w'.store.blobs ensures HasRow(w'.store.rows, x) || HasUpload(w'.conns, x) {
      if !HasRow(w'.store.rows, x) {
        var c :| c in w.conns && w.conns[c].Unfinished() && w.conns[c].md5 == x;
        assert c in w'.conns && w'.conns[c].Unfinished();
      }
    }
  }

  /** A finished file gets its row: k is set on connection c and nobody else uploads it. */
  lemma FinishOk(w: World, c: nat, k: Conn, sizeOf: string -> nat)
    requires WorldOk(w, sizeOf) && ConnOk(k) && k.status == Fin
    requires k.md5 in w.store.blobs && k.size == sizeOf(k.md5)
    requires forall d :: d in w.conns && d != c && w.conns[d].Unfinished() ==> w.conns[d].md5 != k.md5
    requires c in w.conns && w.conns[c].Unfinished() ==> w.conns[c].md5 == k.md5
    ensures WorldOk(World(InsertFile(w.store, k), w.conns[c := k]), sizeOf)
  {
    SizedSet(w, c, k, sizeOf);
    InsertKeepsStore(w.store, k, w.conns[c := k], sizeOf);
    FinishOwned(w, c, k);
  }

  lemma SizedSet(w: World, c: nat, k: Conn, sizeOf: string -> nat)
    requires Sized(w, sizeOf) && (k.isPut ==> k.size == sizeOf(k.md5))
    ensures Sized(World(w.store, w.conns[c := k]), sizeOf)
  {
  }

  lemma FinishOwned(w: World, c: nat, k: Conn)
    requires Owned(w) && !k.Unfinished() && GetSuffix(k.name) != "d"
    requires forall d :: d in w.conns && d != c && w.conns[d].Unfinished() ==> w.conns[d].md5 != k.md5
    requires c in w.conns && w.conns[c].Unfinished() ==> w.conns[c].md5 == k.md5
    ensures Owned(World(InsertFile(w.store, k), w.conns[c := k]))
  {
    var w' := World(InsertFile(w.store, k), w.conns[c := k]);
    forall x ensures HasRow(w'.store.rows, x) <==> HasRow(w.store.rows, x) || x == k.md5 {
      HasRowInsert(w.store, k.name, k.md5, k.size, k.parent, GetSuffix(k.name), x);
    }
    OwnedInsert(w, w', k.md5);
  }

  lemma QuickOk(w: World, c: nat, r: Request, sizeOf: string -> nat)
    requires WorldOk(w, sizeOf) && Proper(w, Puts(c, r), sizeOf)
    requires Taken(w, c, r) && TaskOutcome(w.store, r).Quick?
    ensures WorldOk(Step(w, Puts(c, r)), sizeOf)
  {
    var id :| id in w.store.rows && w.store.rows[id].md5 == r.md5;
    assert !w.store.rows[id].IsDir();
    assert HasRow(w.store.rows, r.md5);
    FinishOk(w, c, Conn(Fin, true, r.name, r.md5, r.size, r.size, r.parent), sizeOf);
  }

  lemma RowMeansKnown(rows: Table, m: string)
    ensures HasRow(rows, m) ==> HashKnown(rows, m)
  {
  }

  lemma FreshOk(w: World, c: nat, r: Request, sizeOf: string -> nat)
    requires WorldOk(w, sizeOf) && Proper(w, Puts(c, r), sizeOf)
    requires Taken(w, c, r) && TaskOutcome(w.store, r).Fresh?
    ensures WorldOk(Step(w, Puts(c, r)), sizeOf)
  {
    FreshOwned(w, c, r);
    SizedSet(w, c, Step(w, Puts(c, r)).conns[c], sizeOf);
  }

  lemma FreshOwned(w: World, c: nat, r: Request)
    requires Owned(w) && Taken(w, c, r) && TaskOutcome(w.store, r).Fresh?
    requires ConnOk(w.conns[c])
    ensures Owned(Step(w, Puts(c, r)))
  {
    var w' := Step(w, Puts(c, r));
    assert w'.conns[c].Unfinished();
    RowMeansKnown(w.store.rows, r.md5);
    forall m | m in w'.store.blobs ensures HasRow(w'.store.rows, m) || HasUpload(w'.conns, m) {
      if m != r.md5 && !HasRow(w.store.rows, m) {
        var d :| d in w.conns && w.conns[d].Unfinished() && w.conns[d].md5 == m;
        assert d in w'.conns && w'.conns[d] == w.conns[d];
      }
    }
  }

  lemma DataOk(w: World, c: nat, n: nat, sizeOf: string -> nat)
    requires WorldOk(w, sizeOf) && Proper(w, PutsData(c, n), sizeOf)
    ensures WorldOk(Step(w, PutsData(c, n)), sizeOf)
  {
    var w' := Step(w, PutsData(c, n));
    if c in w.conns && w.conns[c].status == Doing {
      var k := w.conns[c];
      assert k.Unfinished();
      if k.size < 0x1_0000_0000_0000_0000 { assert (k.size - n) % 0x1_0000_0000_0000_0000 == k.size - n; }
      if k.handled <= (k.size - n) % 0x1_0000_0000_0000_0000 && k.handled + n == k.size {
        FinishOk(w, c, k.(handled := k.size, status := Fin), sizeOf);
      } else {
        SameUploads(w, w');
      }
    }
  }

  /** Unfinished uploads with the same hashes own the same files. */
  lemma SameUploads(w: World, w': World)
    requires Owned(w) && w'.store == w.store
    requires forall c :: c in w'.conns && w'.conns[c].Unfinished() ==>
               c in w.conns && w.conns[c].Unfinished() && w.conns[c].md5 == w'.conns[c].md5
    requires forall c :: c in w.conns && w.conns[c].Unfinished() ==> c in w'.conns && w'.conns[c].Unfinished()
    ensures Owned(w')
  {
    forall m | m in w'.store.blobs ensures HasRow(w'.store.rows, m) || HasUpload(w'.conns, m) {
      if !HasRow(w.store.rows, m) {
        var d :| d in w.conns && w.conns[d].Unfinished() && w.conns[d].md5 == m;
        assert d in w'.conns && w'.conns[d].Unfinished() && w'.conns[d].md5 == m;
      }
    }
  }

  lemma DisconnectOk(w: World, c: nat, sizeOf: string -> nat)
    requires WorldOk(w, sizeOf)
    ensures WorldOk(Step(w, Disconnect(c)), sizeOf)
  {
    var w' := Step(w, Disconnect(c));
    if c in w.conns {
      if w.conns[c].Unfinished() {
        var gone := w.conns[c].md5;
        forall id | id in w'.store.rows && !w'.store.rows[id].IsDir() ensures w'.store.rows[id].md5 in w'.store.blobs {
          assert HasRow(w.store.rows, w.store.rows[id].md5);
        }
        forall m | m in w'.store.blobs ensures HasRow(w'.store.rows, m) || HasUpload(w'.conns, m) {
          if !HasRow(w.store.rows, m) {
            var d :| d in w.conns && w.conns[d].Unfinished() && w.conns[d].md5 == m;
            assert d in w'.conns && w'.conns[d] == w.conns[d];
          }
        }
      } else {
        SameUploads(w, w');
      }
    }
  }

  lemma RemovalOk(w: World, gone: set<nat>, sizeOf: string -> nat)
    requires WorldOk(w, sizeOf)
    ensures WorldOk(w.(store := Without(w.store, gone)), sizeOf)
  {
    var s' := Without(w.store, gone);
    WithoutKeepsStore(w.store, gone);
    assert forall x :: x in s'.rows ==> x in w.store.rows && s'.rows[x] == w.store.rows[x];
    forall m ensures HasRow(s'.rows, m) ==> HasRow(w.store.rows, m) {
      HasRowLess(w.store.rows, gone, m);
    }
    forall m | m in s'.blobs ensures HasRow(s'.rows, m) || HasUpload(w.conns, m) {
    }
  }

  lemma StepOk(w: World, e: Event, sizeOf: string -> nat)
    requires WorldOk(w, sizeOf) && Proper(w, e, sizeOf)
    ensures WorldOk(Step(w, e), sizeOf)
  {
    match e
    case Connect(c) => ConnectOk(w, c, sizeOf);
    case Puts(c, r) => PutsOk(w, c, r, sizeOf);
    case PutsData(c, n) => DataOk(w, c, n, sizeOf);
    case PutsFinish(c) => CloseOk(w, c, sizeOf);
    case Disconnect(c) => DisconnectOk(w, c, sizeOf);
    case MakeDir(name, parent) => MakeDirOk(w, name, parent, sizeOf);
    case DeleteFile(id) => DeleteOk(w, e, sizeOf);
    case DeleteDir(id) => DeleteOk(w, e, sizeOf);
  }

  lemma PutsOk(w: World, c: nat, r: Request, sizeOf: string -> nat)
    requires WorldOk(w, sizeOf) && Proper(w, Puts(c, r), sizeOf)
    ensures WorldOk(Step(w, Puts(c, r)), sizeOf)
  {
    if Taken(w, c, r) {
      match TaskOutcome(w.store, r)
      case Quick => QuickOk(w, c, r, sizeOf);
      case Fresh => FreshOk(w, c, r, sizeOf);
      case _ =>
    }
  }

  /** What a directory request removes, as it should be removed. */
  lemma DirGone(s: Store, id: nat) returns (gone: set<nat>)
    requires StoreOk(s) && id != 0 && !Looped(s.rows, id)
    requires id in s.rows && !s.rows[id].IsDir() ==> RowSpare(s.rows, id)
    ensures DirDeleted(s, id) == Without(s, gone) && s.rows - gone == s.rows - Subtree(s.rows, id)
  {
    var below := Beneath(s.rows, id);
    var mid := Without(s, below);
    gone := if IsDirRow(s.rows, id) || id !in below then Subtree(s.rows, id) else below;
    if IsDirRow(s.rows, id) || id !in s.rows {
      DirRowDue(s, id);
      if id !in s.rows {
        assert s.rows - gone == s.rows - below;
      }
    } else if id in below {
      assert mid.rows - {id} == mid.rows && s.rows - below == s.rows - Subtree(s.rows, id);
    } else {
      assert mid.rows - {id} == s.rows - Subtree(s.rows, id);
      SpareRowDropped(mid, id);
      WithoutTwice(s, below, {id});
    }
  }

  /** An empty file's row can go without any other change when another row has its hash. */
  lemma SpareRowDropped(s: Store, id: nat)
    requires id in s.rows && s.rows[id].size == 0 && HasRow(s.rows - {id}, s.rows[id].md5)
    ensures Without(s, {id}) == s.(rows := s.rows - {id})
  {
    SumWithout(Sizes(s.rows), id);
    assert Sizes(s.rows) - {id} == Sizes(s.rows - {id});
    forall m ensures HasRow(s.rows, m) ==> HasRow(s.rows - {id}, m) {
      if HasRow(s.rows, m) {
        var x :| x in s.rows && !s.rows[x].IsDir() && s.rows[x].md5 == m;
        assert x != id ==> x in s.rows - {id} && (s.rows - {id})[x] == s.rows[x];
      }
    }
  }

  lemma DeleteOk(w: World, e: Event, sizeOf: string -> nat)
    requires WorldOk(w, sizeOf) && Proper(w, e, sizeOf) && (e.DeleteFile? || e.DeleteDir?)
    ensures WorldOk(Step(w, e), sizeOf)
    ensures Step(w, e) == w || exists gone :: Step(w, e) == w.(store := Without(w.store, gone))
  {
    if e.DeleteFile? {
      RemovalOk(w, {e.id}, sizeOf);
    } else if e.id != 0 {
      var gone := DirGone(w.store, e.id);
      RemovalOk(w, gone, sizeOf);
      assert Step(w, e) == w.(store := Without(w.store, gone));
    }
  }

  lemma ConnectOk(w: World, c: nat, sizeOf: string -> nat)
    requires WorldOk(w, sizeOf)
    ensures WorldOk(Step(w, Connect(c)), sizeOf)
  {
    SameUploads(w, Step(w, Connect(c)));
  }

  lemma CloseOk(w: World, c: nat, sizeOf: string -> nat)
    requires WorldOk(w, sizeOf)
    ensures WorldOk(Step(w, PutsFinish(c)), sizeOf)
  {
    SameUploads(w, Step(w, PutsFinish(c)));
  }

  lemma MakeDirOk(w: World, name: string, parent: nat, sizeOf: string -> nat)
    requires WorldOk(w, sizeOf)
    ensures WorldOk(Step(w, MakeDir(name, parent)), sizeOf)
  {
    MakeDirKeepsStore(w.store, name, parent);
    MakeDirKeepsOwned(w, name, parent, sizeOf);
  }

  lemma MakeDirKeepsOwned(w: World, name: string, parent: nat, sizeOf: string -> nat)
    requires Owned(w) && Sized(w, sizeOf)
    ensures var w' := Step(w, MakeDir(name, parent));
            Owned(w') && Sized(w', sizeOf)
  {
    var w' := Step(w, MakeDir(name, parent));
    forall x ensures HasRow(w'.store.rows, x) <==> HasRow(w.store.rows, x) {
      HasRowInsert(w.store, name, "", 0, parent, "d", x);
    }
    var id := NextId(w.store.rows);
    assert forall x :: x in w'.store.rows && x != id ==> x in w.store.rows && w'.store.rows[x] == w.store.rows[x];
  }

  lemma {:induction false} RunOk(w: World, events: seq<Event>, sizeOf: string -> nat)
    requires WorldOk(w, sizeOf) && AllProper(w, events, sizeOf)
    ensures WorldOk(Run(w, events), sizeOf)
    decreases |events|
  {
    if events != [] {
      StepOk(w, events[0], sizeOf);
      RunOk(Step(w, events[0]), events[1..], sizeOf);
    }
  }

  // ---------- main results ----------

  /** After any run from an empty store, whatever directories are deleted while files are
      being uploaded into them: every file row's content is on disk; every content file belongs
      either to rows or to one unfinished upload, never to both; and the used capacity is the
      sum of the row sizes.
   */
  lemma OwnershipOverRuns(capacity: nat, events: seq<Event>, sizeOf: string -> nat)
    requires AllProper(World(Store(map[], 0, capacity, {}), map[]), events, sizeOf)
    ensures var w := Run(World(Store(map[], 0, capacity, {}), map[]), events);
            && BlobsPresent(w.store) && UsedOk(w.store)
            && (forall m :: m in w.store.blobs ==> (HasRow(w.store.rows, m) <==> !HasUpload(w.conns, m)))
            && (forall c, d :: c in w.conns && d in w.conns && w.conns[c].Unfinished() && w.conns[d].Unfinished() ==>
                  (w.conns[c].md5 == w.conns[d].md5 ==> c == d))
  {
    var start := World(Store(map[], 0, capacity, {}), map[]);
    assert Sizes(start.store.rows) == map[];
    RunOk(start, events, sizeOf);
  }

  // ---------- directories over runs ----------

  /** Directories are made in the root or an existing directory only. */
  ghost predicate AllInFolders(w: World, events: seq<Event>, sizeOf: string -> nat)
    decreases |events|
  {
    events == []
    || (Sensible(w, events[0], sizeOf) && (events[0].MakeDir? ==> ParentOk(w.store.rows, events[0].parent))
        && AllInFolders(Step(w, events[0]), events[1..], sizeOf))
  }

  /** The step inserts a file row or leaves the rows alone. */
  lemma RowsAfter(w: World, e: Event, sizeOf: string -> nat) returns (inserted: bool, k: Conn)
    requires WorldOk(w, sizeOf) && Proper(w, e, sizeOf) && !e.DeleteFile? && !e.DeleteDir? && !e.MakeDir?
    ensures !inserted ==> Step(w, e).store.rows == w.store.rows
    ensures inserted ==> Step(w, e).store.rows == InsertFile(w.store, k).rows
                         && GetSuffix(k.name) != "d" && IsParent(w, e, k.parent)
  {
    inserted, k := false, NEW_CONN;
    if e.Puts? && Taken(w, e.c, e.r) && TaskOutcome(w.store, e.r).Quick? {
      inserted, k := true, Conn(Fin, true, e.r.name, e.r.md5, e.r.size, e.r.size, e.r.parent);
    } else if e.PutsData? && e.c in w.conns && w.conns[e.c].status == Doing {
      assert ConnOk(w.conns[e.c]);
      inserted, k := Step(w, e).store.rows != w.store.rows, w.conns[e.c];
    }
  }

  /** The event puts a row below this parent. */
  predicate IsParent(w: World, e: Event, parent: nat) {
    match e
    case Puts(c, r) => r.parent == parent
    case PutsData(c, n) => c in w.conns && w.conns[c].parent == parent
    case MakeDir(_, p) => p == parent
    case _ => false
  }

  lemma DirsStep(w: World, e: Event, sizeOf: string -> nat)
    requires WorldOk(w, sizeOf) && Sensible(w, e, sizeOf) && DirsOk(w.store.rows)
    requires e.MakeDir? ==> ParentOk(w.store.rows, e.parent)
    ensures Proper(w, e, sizeOf) && DirsOk(Step(w, e).store.rows)
  {
    var s := w.store;
    if e.DeleteDir? {
      NoLoops(s.rows, e.id);
      if e.id != 0 {
        SubtreeClosed(s.rows, e.id);
        WithoutKeepsDirs(s.rows, Subtree(s.rows, e.id));
        assert Step(w, e).store.rows == s.rows - Subtree(s.rows, e.id);
      }
    } else if e.DeleteFile? {
      if e.id in s.rows && !s.rows[e.id].IsDir() {
        forall x | x in s.rows && s.rows[x].IsDir() ensures s.rows[x].parent != e.id { assert Placed(s.rows, x); }
        WithoutKeepsDirs(s.rows, {e.id});
      }
    } else if e.MakeDir? {
      InsertKeepsDirsIff(s, e.name, "", 0, e.parent, "d");
    } else {
      var inserted, k := RowsAfter(w, e, sizeOf);
      if inserted {
        InsertKeepsDirsIff(s, k.name, k.md5, k.size, k.parent, GetSuffix(k.name));
      }
    }
  }

  /** If directories are only made where there is one, all directories stay in place over any
      run, none is ever below itself, and so every delete request returns: the results about
      ownership and capacity hold.
   */
  lemma {:induction false} FoldersOverRuns(w: World, events: seq<Event>, sizeOf: string -> nat)
    requires WorldOk(w, sizeOf) && DirsOk(w.store.rows) && AllInFolders(w, events, sizeOf)
    ensures AllProper(w, events, sizeOf) && DirsOk(Run(w, events).store.rows)
    ensures forall d :: !Looped(Run(w, events).store.rows, d)
    decreases |events|
  {
    if events == [] {
      forall d ensures !Looped(w.store.rows, d) { NoLoops(w.store.rows, d); }
    } else {
      DirsStep(w, events[0], sizeOf);
      StepOk(w, events[0], sizeOf);
      FoldersOverRuns(Step(w, events[0]), events[1..], sizeOf);
    }
  }

  /** Files as well are only put where there is a directory when the row is made. */
  ghost predicate AllInTree(w: World, events: seq<Event>, sizeOf: string -> nat)
    decreases |events|
  {
    events == []
    || (Sensible(w, events[0], sizeOf) && (forall p :: IsParent(w, events[0], p) ==> ParentOk(w.store.rows, p))
        && AllInTree(Step(w, events[0]), events[1..], sizeOf))
  }

  lemma TreeFileDeletion(w: World, id: nat)
    requires TreeOk(w.store.rows)
    ensures TreeOk(Step(w, DeleteFile(id)).store.rows)
  {
    var rows := w.store.rows;
    if id in rows && !rows[id].IsDir() {
      forall x | x in rows ensures rows[x].parent != id { assert Placed(rows, x); }
      WithoutKeepsTree(rows, {id});
    }
  }

  lemma TreeDirDeletion(w: World, id: nat)
    requires TreeOk(w.store.rows)
    ensures TreeOk(Step(w, DeleteDir(id)).store.rows)
  {
    if id != 0 {
      var rows, gone := w.store.rows, Subtree(w.store.rows, id);
      SubtreeClosed(rows, id);
      forall x | x in rows && rows[x].parent in gone ensures x in gone { assert Placed(rows, x); }
      WithoutKeepsTree(rows, gone);
      assert DirDeleted(w.store, id).rows == rows - gone;
    }
  }

  lemma TreeStep(w: World, e: Event, sizeOf: string -> nat)
    requires WorldOk(w, sizeOf) && Sensible(w, e, sizeOf) && TreeOk(w.store.rows)
    requires forall p :: IsParent(w, e, p) ==> ParentOk(w.store.rows, p)
    ensures Proper(w, e, sizeOf) && TreeOk(Step(w, e).store.rows)
  {
    assert e.MakeDir? ==> IsParent(w, e, e.parent);
    DirsStep(w, e, sizeOf);
    if e.DeleteFile? {
      TreeFileDeletion(w, e.id);
    } else if e.DeleteDir? {
      TreeDirDeletion(w, e.id);
    } else {
      TreeInsertion(w, e, sizeOf);
    }
  }

  lemma TreeInsertion(w: World, e: Event, sizeOf: string -> nat)
    requires WorldOk(w, sizeOf) && Proper(w, e, sizeOf) && TreeOk(w.store.rows) && !e.DeleteFile? && !e.DeleteDir?
    requires forall p :: IsParent(w, e, p) ==> ParentOk(w.store.rows, p)
    ensures TreeOk(Step(w, e).store.rows)
  {
    if e.MakeDir? {
      assert IsParent(w, e, e.parent);
      InsertKeepsTreeIff(w.store, e.name, "", 0, e.parent, "d");
    } else {
      var inserted, k := RowsAfter(w, e, sizeOf);
      if inserted {
        InsertKeepsTreeIff(w.store, k.name, k.md5, k.size, k.parent, GetSuffix(k.name));
      }
    }
  }

  /** Then the whole tree is in order over any run: every row below an existing directory,
      with its depth as its grade.
   */
  lemma {:induction false} TreeOverRuns(w: World, events: seq<Event>, sizeOf: string -> nat)
    requires WorldOk(w, sizeOf) && TreeOk(w.store.rows) && AllInTree(w, events, sizeOf)
    ensures AllProper(w, events, sizeOf) && TreeOk(Run(w, events).store.rows)
    decreases |events|
  {
    if events != [] {
      TreeStep(w, events[0], sizeOf);
      StepOk(w, events[0], sizeOf);
      TreeOverRuns(Step(w, events[0]), events[1..], sizeOf);
    }
  }

  /** Closing a connection never removes content that a row refers to. */
  lemma CloseKeepsRowContent(w: World, c: nat, sizeOf: string -> nat)
    requires WorldOk(w, sizeOf)
    ensures forall id :: id in w.store.rows && !w.store.rows[id].IsDir() ==>
              w.store.rows[id].md5 in Step(w, Disconnect(c)).store.blobs
  {
    DisconnectOk(w, c, sizeOf);
  }

  /** Why requests must be for files that can be created: an accepted request for new content
      keeps the ownership exactly if the file is neither empty nor past the signed range.
   */
  lemma RequestKeepsOwnershipIff(w: World, c: nat, r: Request, sizeOf: string -> nat)
    requires WorldOk(w, sizeOf) && Taken(w, c, r)
    requires TaskOutcome(w.store, r).Fresh? || TaskOutcome(w.store, r).Leaked?
    ensures Owned(Step(w, Puts(c, r))) <==> 0 < r.size < MAX_FILE
  {
    var w' := Step(w, Puts(c, r));
    if 0 < r.size < MAX_FILE {
      FreshOwned(w, c, r);
    } else {
      assert r.md5 in w'.store.blobs;
      RowMeansKnown(w.store.rows, r.md5);
      assert forall d :: d in w.conns && w.conns[d].Unfinished() ==> w.conns[d].md5 != r.md5;
    }
  }

  /** Why a chunk must not be longer than the file: the unsigned difference wraps around, so
      it is accepted, and the upload no longer counts as unfinished while it never ends.
   */
  lemma OverlongChunkIff(w: World, c: nat, n: nat, sizeOf: string -> nat)
    requires WorldOk(w, sizeOf) && c in w.conns && w.conns[c].status == Doing && n < 0x1_0000_0000
    ensures Owned(Step(w, PutsData(c, n))) <==> n <= w.conns[c].size
    ensures n > w.conns[c].size ==>
              && Step(w, PutsData(c, n)).conns[c].status == Doing && !Step(w, PutsData(c, n)).conns[c].Unfinished()
              && Step(w, PutsData(c, n)).store == w.store
  {
    var k, w' := w.conns[c], Step(w, PutsData(c, n));
    assert k.Unfinished();
    if n <= k.size {
      DataOk(w, c, n, sizeOf);
    } else {
      assert (k.size - n) % 0x1_0000_0000_0000_0000 == k.size - n + 0x1_0000_0000_0000_0000;
      assert k.md5 in w'.store.blobs && !HasRow(w'.store.rows, k.md5);
      assert !HasUpload(w'.conns, k.md5);
    }
  }

  /** Why a request must have a hash: directories have the empty one, so a request without a
      hash is taken for known content once there is a directory, and gets a row whose content
      file is missing.
   */
  lemma EmptyHashIff(w: World, c: nat, r: Request, sizeOf: string -> nat)
    requires WorldOk(w, sizeOf) && Taken(w, c, r) && TaskOutcome(w.store, r).Quick?
    ensures BlobsPresent(Step(w, Puts(c, r)).store) <==> r.md5 != ""
    ensures r.md5 == "" ==> exists d :: IsDirRow(w.store.rows, d)
  {
    var id :| id in w.store.rows && w.store.rows[id].md5 == r.md5;
    var s, k := w.store, Conn(Fin, true, r.name, r.md5, r.size, r.size, r.parent);
    assert Step(w, Puts(c, r)).store == InsertFile(s, k);
    if r.md5 == "" {
      assert IsDirRow(s.rows, id);
      assert !HasRow(s.rows, "") && !HasUpload(w.conns, "");
    }
    BlobsWithRow(s, k);
  }

  /** With one file row more the content files are there exactly if that row's is. */
  lemma BlobsWithRow(s: Store, k: Conn)
    requires BlobsPresent(s) && GetSuffix(k.name) != "d"
    ensures BlobsPresent(InsertFile(s, k)) <==> k.md5 in s.blobs
  {
    var s', id := InsertFile(s, k), NextId(s.rows);
    assert s'.rows[id].md5 == k.md5 && !s'.rows[id].IsDir();
    assert forall x :: x in s'.rows && x != id ==> x in s.rows && s'.rows[x] == s.rows[x];
  }

  /** Why it must state the size that belongs to the hash: known content gets a row of the
      size the client states, whatever the size of the content on disk.
   */
  lemma SizeOfHashIff(w: World, c: nat, r: Request, id: nat, sizeOf: string -> nat)
    requires WorldOk(w, sizeOf) && Taken(w, c, r) && TaskOutcome(w.store, r).Quick?
    requires r.md5 != "" && id in w.store.rows && w.store.rows[id].md5 == r.md5
    ensures ContentOk(Step(w, Puts(c, r)).store.rows) <==> r.size == w.store.rows[id].size
  {
    var rows, more := w.store.rows, Step(w, Puts(c, r)).store.rows;
    var last := NextId(rows);
    assert more[last].md5 == r.md5 && more[last].size == r.size && more[id] == rows[id];
    forall x | x in more && x != last ensures x in rows && more[x] == rows[x] {}
    if r.size == rows[id].size {
      assert ContentOk(more);
    }
  }

  /** Then deleting gives back what some row with the hash states: the used capacity stays the
      sum of the sizes exactly if that is the size of the deleted row.
   */
  lemma GivenBackIff(s: Store, id: nat, first: nat, blobs: set<string>)
    requires UsedOk(s) && id in s.rows && first in s.rows
    ensures UsedOk(Store(s.rows - {id}, s.used - s.rows[first].size, s.capacity, blobs))
       <==> s.rows[first].size == s.rows[id].size
  {
    SumWithout(Sizes(s.rows), id);
    assert Sizes(s.rows) - {id} == Sizes(s.rows - {id});
  }

  /** Why a directory request must not name a file: only its row goes. The used capacity
      stays right exactly if the file was empty, or lies below itself and so was deleted as a
      file before.
   */
  lemma DeleteDirOfFileUsed(w: World, id: nat)
    requires UsedOk(w.store) && 0 !in w.store.rows && id in w.store.rows && !w.store.rows[id].IsDir()
    ensures UsedOk(Step(w, DeleteDir(id)).store)
       <==> w.store.rows[id].size == 0 || id in Beneath(w.store.rows, id)
  {
    var mid := Without(w.store, Beneath(w.store.rows, id));
    if id in mid.rows {
      SumWithout(Sizes(mid.rows), id);
      assert Sizes(mid.rows) - {id} == Sizes(mid.rows - {id});
    } else {
      assert mid.rows - {id} == mid.rows;
    }
  }

  /** And its content stays owned exactly if another remaining row has the same content, or
      in the same odd case.
   */
  lemma DeleteDirOfFileOwned(w: World, id: nat)
    requires Owned(w) && BlobsPresent(w.store) && 0 !in w.store.rows && id in w.store.rows && !w.store.rows[id].IsDir()
    ensures Owned(Step(w, DeleteDir(id)))
       <==> HasRow(w.store.rows - Subtree(w.store.rows, id), w.store.rows[id].md5) || id in Beneath(w.store.rows, id)
  {
    var below := Beneath(w.store.rows, id);
    var mid := w.(store := Without(w.store, below));
    WithoutKeepsOwned(w, below);
    if id in below {
      assert mid.store.rows - {id} == mid.store.rows;
    } else {
      assert mid.store.rows - {id} == w.store.rows - Subtree(w.store.rows, id);
      WithoutKeepsBlobs(w.store, below);
      OneRowDropped(mid, id);
    }
  }

  /** A handler that returns keeps the world good exactly if the client does as it should. */
  lemma StepKeepsIff(w: World, e: Event, sizeOf: string -> nat)
    requires WorldOk(w, sizeOf) && (e.DeleteDir? ==> !Looped(w.store.rows, e.id))
    requires e.PutsData? ==> e.n < 0x1_0000_0000
    ensures WorldOk(Step(w, e), sizeOf) <==> Sensible(w, e, sizeOf)
  {
    if Sensible(w, e, sizeOf) {
      StepOk(w, e, sizeOf);
    } else {
      NotSensible(w, e, sizeOf);
    }
  }

  lemma NotSensible(w: World, e: Event, sizeOf: string -> nat)
    requires WorldOk(w, sizeOf) && !Sensible(w, e, sizeOf)
    requires e.PutsData? ==> e.n < 0x1_0000_0000
    ensures !WorldOk(Step(w, e), sizeOf)
  {
    match e
    case Puts(c, r) =>
      match TaskOutcome(w.store, r) {
        case Quick =>
          if r.md5 == "" { EmptyHashIff(w, c, r, sizeOf); }
          else { assert Step(w, e).conns[c].size == r.size && Step(w, e).conns[c].md5 == r.md5; }
        case Fresh => assert Step(w, e).conns[c].size == r.size && Step(w, e).conns[c].md5 == r.md5;
        case Leaked => RequestKeepsOwnershipIff(w, c, r, sizeOf);
        case _ =>
      }
    case PutsData(c, n) => OverlongChunkIff(w, c, n, sizeOf);
    case DeleteDir(id) =>
      DeleteDirOfFileUsed(w, id);
      DeleteDirOfFileOwned(w, id);
    case _ =>
  }

  /** All states on the way are good. */
  ghost predicate GoodThroughout(w: World, events: seq<Event>, sizeOf: string -> nat)
    decreases |events|
  {
    WorldOk(w, sizeOf) && (events == [] || GoodThroughout(Step(w, events[0]), events[1..], sizeOf))
  }

  /** Every handler returns. */
  ghost predicate AllReturn(w: World, events: seq<Event>)
    decreases |events|
  {
    events == []
    || ((events[0].DeleteDir? ==> !Looped(w.store.rows, events[0].id)) && AllReturn(Step(w, events[0]), events[1..]))
  }

  /** Over whole runs: all states are good exactly if the clients do as they should throughout. */
  lemma {:induction false} RunKeepsIff(w: World, events: seq<Event>, sizeOf: string -> nat)
    requires WorldOk(w, sizeOf) && AllReturn(w, events)
    requires forall e :: e in events && e.PutsData? ==> e.n < 0x1_0000_0000
    ensures GoodThroughout(w, events, sizeOf) <==> AllProper(w, events, sizeOf)
    decreases |events|
  {
    if events != [] {
      assert events[0] in events;
      StepKeepsIff(w, events[0], sizeOf);
      if WorldOk(Step(w, events[0]), sizeOf) {
        RunKeepsIff(Step(w, events[0]), events[1..], sizeOf);
      }
    }
  }

  lemma WithoutKeepsBlobs(s: Store, gone: set<nat>)
    requires BlobsPresent(s)
    ensures BlobsPresent(Without(s, gone))
  {
    var s' := Without(s, gone);
    forall id | id in s'.rows && !s'.rows[id].IsDir() ensures s'.rows[id].md5 in s'.blobs {
      assert id in s.rows && s'.rows[id] == s.rows[id];
      assert HasRow(s'.rows, s'.rows[id].md5);
    }
  }

  lemma WithoutKeepsOwned(w: World, gone: set<nat>)
    requires Owned(w)
    ensures Owned(w.(store := Without(w.store, gone)))
  {
    var s' := Without(w.store, gone);
    forall m ensures HasRow(s'.rows, m) ==> HasRow(w.store.rows, m) {
      HasRowLess(w.store.rows, gone, m);
    }
  }

  /** A file's row is dropped and nothing else. */
  lemma OneRowDropped(w: World, id: nat)
    requires Owned(w) && BlobsPresent(w.store) && id in w.store.rows && !w.store.rows[id].IsDir()
    ensures Owned(w.(store := w.store.(rows := w.store.rows - {id}))) <==> HasRow(w.store.rows - {id}, w.store.rows[id].md5)
  {
    var m, rows, w' := w.store.rows[id].md5, w.store.rows - {id}, w.(store := w.store.(rows := w.store.rows - {id}));
    assert HasRow(w.store.rows, m) && m in w.store.blobs;
    forall x ensures HasRow(rows, x) <==> HasRow(w.store.rows, x) && (x == m ==> HasRow(rows, m)) {
      HasRowLess(w.store.rows, {id}, x);
      if x != m && HasRow(w.store.rows, x) {
        var y :| y in w.store.rows && !w.store.rows[y].IsDir() && w.store.rows[y].md5 == x;
        assert y in rows && rows[y] == w.store.rows[y];
      }
    }
    if !HasRow(rows, m) {
      assert !HasUpload(w.conns, m);
    }
  }
}
