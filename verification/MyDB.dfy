/** One user's file table, used capacity and content files on disk. Content is stored once
    per hash, so a content file is shared by all rows with its hash.
 */
module MyDB {
  import opened Sums

  /** A row of the file table, keyed by its id. */
  datatype Row = Row(name: string, grade: int, suffix: string, md5: string, size: nat, parent: nat) {
    predicate IsDir() {
      suffix == "d"
    }
  }

  type Table = map<nat, Row>

  /** blobs: the hashes of the content files on disk. */
  datatype Store = Store(rows: Table, used: int, capacity: nat, blobs: set<string>)

  ghost function Sizes(rows: Table): map<nat, nat> {
    map id | id in rows :: rows[id].size
  }

  // ---------- the directory tree ----------

  predicate ParentOk(rows: Table, parent: nat) {
    parent == 0 || (parent in rows && rows[parent].IsDir())
  }

  /** The row hangs in the root or in an existing directory with a smaller id, and its grade
      is one more than that directory's.
   */
  predicate Placed(rows: Table, id: nat)
    requires id in rows
  {
    var p := rows[id].parent;
    && ParentOk(rows, p) && p < id
    && rows[id].grade == (if p == 0 then 0 else rows[p].grade + 1)
  }

  ghost predicate TreeOk(rows: Table) {
    0 !in rows && forall id :: id in rows ==> Placed(rows, id)
  }

  /** Every directory is in place. A file may outlive its directory. */
  ghost predicate DirsOk(rows: Table) {
    0 !in rows && forall id :: id in rows && rows[id].IsDir() ==> Placed(rows, id)
  }

  predicate IsDirRow(rows: Table, id: nat) {
    id in rows && rows[id].IsDir()
  }

  /** n parent steps lead from x to d, over directories in between. */
  predicate Leads(rows: Table, x: nat, d: nat, n: nat)
    decreases n
  {
    if n == 0 then x == d
    else x in rows && (n == 1 || IsDirRow(rows, rows[x].parent)) && Leads(rows, rows[x].parent, d, n - 1)
  }

  /** x is strictly below d. */
  ghost predicate Below(rows: Table, x: nat, d: nat) {
    exists n: nat :: n > 0 && Leads(rows, x, d, n)
  }

  ghost function Beneath(rows: Table, d: nat): set<nat> {
    set x | x in rows && Below(rows, x, d)
  }

  /** d with everything below it. */
  ghost function Subtree(rows: Table, d: nat): set<nat> {
    Beneath(rows, d) + {d}
  }

  /** A directory that is below itself. */
  ghost predicate Looped(rows: Table, d: nat) {
    IsDirRow(rows, d) && Below(rows, d, d)
  }

  /** How many directories lie between a row and the root. */
  function Depth(rows: Table, x: nat): nat
    decreases x
  {
    if x !in rows || rows[x].parent == 0 || rows[x].parent >= x then 0 else 1 + Depth(rows, rows[x].parent)
  }

  lemma {:induction false} GradeIsDepth(rows: Table, x: nat)
    requires DirsOk(rows) && x in rows && Placed(rows, x)
    ensures rows[x].grade == Depth(rows, x)
    decreases x
  {
    if rows[x].parent != 0 { GradeIsDepth(rows, rows[x].parent); }
  }

  /** The subtree of d is the least set that holds d, the rows whose parent is d, and those
      whose parent is a directory in the set.
   */
  lemma SubtreeIsLeast(rows: Table, d: nat, s: set<nat>)
    ensures d in Subtree(rows, d) && ClosedBelow(rows, d, Subtree(rows, d))
    ensures d in s && ClosedBelow(rows, d, s) ==> Subtree(rows, d) <= s
  {
    forall x | x in rows && HangsFrom(rows, x, d, Subtree(rows, d)) ensures x in Subtree(rows, d) {
      if rows[x].parent == d { assert Leads(rows, x, d, 1); }
      else {
        var n: nat :| n > 0 && Leads(rows, rows[x].parent, d, n);
        assert Leads(rows, x, d, n + 1);
      }
    }
    if d in s && ClosedBelow(rows, d, s) {
      forall x | x in Subtree(rows, d) ensures x in s {
        if x != d {
          var n: nat :| n > 0 && Leads(rows, x, d, n);
          LeadsInside(rows, x, d, n, s);
        }
      }
    }
  }

  predicate HangsFrom(rows: Table, x: nat, d: nat, s: set<nat>)
    requires x in rows
  {
    rows[x].parent == d || (rows[x].parent in s && IsDirRow(rows, rows[x].parent))
  }

  ghost predicate ClosedBelow(rows: Table, d: nat, s: set<nat>) {
    forall x :: x in rows && HangsFrom(rows, x, d, s) ==> x in s
  }

  lemma {:induction false} LeadsInside(rows: Table, x: nat, d: nat, n: nat, s: set<nat>)
    requires d in s && ClosedBelow(rows, d, s) && n > 0 && Leads(rows, x, d, n)
    ensures x in s
    decreases n
  {
    if n > 1 { LeadsInside(rows, rows[x].parent, d, n - 1, s); }
    assert HangsFrom(rows, x, d, s);
  }

  lemma {:induction false} DirsLeadDown(rows: Table, x: nat, d: nat, n: nat)
    requires DirsOk(rows) && IsDirRow(rows, x) && n > 0 && Leads(rows, x, d, n)
    ensures d < x
    decreases n
  {
    assert Placed(rows, x);
    if n > 1 { DirsLeadDown(rows, rows[x].parent, d, n - 1); }
  }

  /** With all directories in place none is below itself. */
  lemma NoLoops(rows: Table, d: nat)
    requires DirsOk(rows)
    ensures !Looped(rows, d)
  {
    forall n: nat | n > 0 && IsDirRow(rows, d) ensures !Leads(rows, d, d, n) {
      if Leads(rows, d, d, n) { DirsLeadDown(rows, d, d, n); }
    }
  }

  // ---------- what a store should be ----------

  /** Some file row has the hash. */
  predicate HasRow(rows: Table, md5: string) {
    exists id :: id in rows && !rows[id].IsDir() && rows[id].md5 == md5
  }

  /** Files have hashes, equal hashes mean equal sizes, and directories are empty entries. */
  ghost predicate ContentOk(rows: Table) {
    && (forall id :: id in rows ==> if rows[id].IsDir() then rows[id].md5 == "" && rows[id].size == 0 else rows[id].md5 != "")
    && (forall a, b :: a in rows && b in rows && rows[a].md5 == rows[b].md5 ==> rows[a].size == rows[b].size)
  }

  ghost predicate BlobsPresent(s: Store) {
    forall id :: id in s.rows && !s.rows[id].IsDir() ==> s.rows[id].md5 in s.blobs
  }

  ghost predicate UsedOk(s: Store) {
    s.used == Sum(Sizes(s.rows))
  }

  ghost predicate StoreOk(s: Store) {
    0 !in s.rows && ContentOk(s.rows) && BlobsPresent(s) && UsedOk(s)
  }

  // ---------- insertion ----------

  ghost predicate IsMax(rows: Table, top: nat) {
    top in rows && forall id :: id in rows ==> id <= top
  }

  lemma {:induction false} MaxExists(rows: Table)
    requires rows != map[]
    ensures exists top :: IsMax(rows, top)
    decreases |rows|
  {
    var k :| k in rows;
    var less := rows - {k};
    if less == map[] {
      assert forall id :: id in rows && id != k ==> id in less;
      assert IsMax(rows, k);
    } else {
      MaxExists(less);
      var top :| IsMax(less, top);
      var best := if k <= top then top else k;
      assert forall id :: id in rows && id != k ==> id in less;
      assert IsMax(rows, best);
    }
  }

  /** The largest id plus one, or 1 for an empty table. */
  ghost function NextId(rows: Table): (id: nat)
    ensures id > 0 && id !in rows && forall x :: x in rows ==> x < id
  {
    if rows == map[] then 1
    else
      MaxExists(rows);
      var top: nat :| IsMax(rows, top);
      top + 1
  }

  /** A new row below parent; a parent that is no directory gives grade 0 but is kept. */
  function NewRow(rows: Table, name: string, md5: string, size: nat, parent: nat, suffix: string): Row {
    var grade := if parent in rows && rows[parent].IsDir() then rows[parent].grade + 1 else 0;
    Row(name, grade, suffix, md5, size, parent)
  }

  ghost function Insert(s: Store, name: string, md5: string, size: nat, parent: nat, suffix: string): Store {
    s.(rows := s.rows[NextId(s.rows) := NewRow(s.rows, name, md5, size, parent, suffix)], used := s.used + size)
  }

  /** Exactly one row has come, with an id above all others and these fields. */
  ghost predicate RowAdded(was: Table, now: Table, id: nat, name: string, md5: string, size: nat, parent: nat, suffix: string) {
    && id > 0 && now.Keys == was.Keys + {id} && (forall x :: x in was ==> x < id && now[x] == was[x])
    && now[id].name == name && now[id].md5 == md5 && now[id].size == size
    && now[id].parent == parent && now[id].suffix == suffix
  }

  lemma InsertAddsRow(s: Store, name: string, md5: string, size: nat, parent: nat, suffix: string)
    ensures var s' := Insert(s, name, md5, size, parent, suffix);
            && RowAdded(s.rows, s'.rows, NextId(s.rows), name, md5, size, parent, suffix)
            && s'.used == s.used + size && s'.capacity == s.capacity && s'.blobs == s.blobs
  {
  }

  lemma MaxIsNext(rows: Table, top: nat)
    requires IsMax(rows, top)
    ensures NextId(rows) == top + 1
  {
    var best: nat :| IsMax(rows, best) && NextId(rows) == best + 1;
  }

  /** Insertion keeps the tree exactly when the parent is the root or an existing directory
      (directory 0 is never one): nothing else is asked of the caller.
   */
  lemma InsertKeepsTreeIff(s: Store, name: string, md5: string, size: nat, parent: nat, suffix: string)
    requires TreeOk(s.rows)
    ensures TreeOk(Insert(s, name, md5, size, parent, suffix).rows) <==> ParentOk(s.rows, parent)
  {
    var id, rows := NextId(s.rows), Insert(s, name, md5, size, parent, suffix).rows;
    if ParentOk(s.rows, parent) {
      forall x | x in s.rows ensures Placed(rows, x) {
        assert Placed(s.rows, x) && rows[x] == s.rows[x];
      }
      assert Placed(rows, id);
    } else {
      assert !Placed(rows, id);
    }
  }

  /** Insertion keeps the directories in place exactly when what is inserted is a file, or a
      directory below the root or an existing directory.
   */
  lemma InsertKeepsDirsIff(s: Store, name: string, md5: string, size: nat, parent: nat, suffix: string)
    requires DirsOk(s.rows)
    ensures DirsOk(Insert(s, name, md5, size, parent, suffix).rows) <==> suffix != "d" || ParentOk(s.rows, parent)
  {
    var id, rows := NextId(s.rows), Insert(s, name, md5, size, parent, suffix).rows;
    forall x | x in s.rows && s.rows[x].IsDir() ensures Placed(rows, x) {
      assert Placed(s.rows, x) && rows[x] == s.rows[x];
    }
    assert suffix == "d" ==> (Placed(rows, id) <==> ParentOk(s.rows, parent));
  }

  lemma InsertUsed(s: Store, name: string, md5: string, size: nat, parent: nat, suffix: string)
    requires UsedOk(s)
    ensures UsedOk(Insert(s, name, md5, size, parent, suffix))
  {
    var id, s' := NextId(s.rows), Insert(s, name, md5, size, parent, suffix);
    SumWithout(Sizes(s'.rows), id);
    assert Sizes(s'.rows) - {id} == Sizes(s.rows);
  }

  /** All that at once. */
  lemma Inserted(s: Store, name: string, md5: string, size: nat, parent: nat, suffix: string)
    ensures var s' := Insert(s, name, md5, size, parent, suffix);
            && RowAdded(s.rows, s'.rows, NextId(s.rows), name, md5, size, parent, suffix)
            && s'.used == s.used + size && s'.capacity == s.capacity && s'.blobs == s.blobs
            && (TreeOk(s.rows) ==> (TreeOk(s'.rows) <==> ParentOk(s.rows, parent)))
            && (UsedOk(s) ==> UsedOk(s'))
  {
    InsertAddsRow(s, name, md5, size, parent, suffix);
    if TreeOk(s.rows) { InsertKeepsTreeIff(s, name, md5, size, parent, suffix); }
    if UsedOk(s) { InsertUsed(s, name, md5, size, parent, suffix); }
  }

  // ---------- removal ----------

  /** The store without some rows: their sizes are given back, and a content file goes when
      the last row with its hash goes.
   */
  ghost function Without(s: Store, gone: set<nat>): Store {
    var rows := s.rows - gone;
    Store(rows, s.used - (Sum(Sizes(s.rows)) - Sum(Sizes(rows))), s.capacity,
          set m | m in s.blobs && (HasRow(s.rows, m) ==> HasRow(rows, m)))
  }

  /** What that takes away: these rows, their sizes, and the content files whose last row is
      among them.
   */
  lemma WithoutMeans(s: Store, gone: set<nat>)
    ensures var s' := Without(s, gone);
            && (forall x :: x in s'.rows <==> x in s.rows && x !in gone)
            && (forall x :: x in s'.rows ==> s'.rows[x] == s.rows[x])
            && s'.used == s.used - Sum(map x | x in s.rows && x in gone :: s.rows[x].size)
            && (forall m :: m in s.blobs && m !in s'.blobs <==>
                  m in s.blobs && HasRow(s.rows, m) && forall x :: x in s.rows && !s.rows[x].IsDir() && s.rows[x].md5 == m ==> x in gone)
            && s'.blobs <= s.blobs && s'.capacity == s.capacity
  {
    var s' := Without(s, gone);
    var taken := map x | x in s.rows && x in gone :: s.rows[x].size;
    assert Sizes(s'.rows) + taken == Sizes(s.rows);
    SumDisjoint(Sizes(s'.rows), taken);
    forall m ensures HasRow(s'.rows, m) <==> exists x :: x in s.rows && !s.rows[x].IsDir() && s.rows[x].md5 == m && x !in gone {
      if x :| x in s.rows && !s.rows[x].IsDir() && s.rows[x].md5 == m && x !in gone { assert x in s'.rows; }
      if x :| x in s'.rows && !s'.rows[x].IsDir() && s'.rows[x].md5 == m { assert x in s.rows && x !in gone; }
    }
  }

  /** For a single file: its content goes exactly if no other row has its hash. */
  lemma WithoutFile(s: Store, id: nat)
    requires id in s.rows && !s.rows[id].IsDir()
    ensures var s', m := Without(s, {id}), s.rows[id].md5;
            && s'.rows == s.rows - {id} && s'.used == s.used - s.rows[id].size && s'.capacity == s.capacity
            && s'.blobs == s.blobs - if HasRow(s.rows - {id}, m) then {} else {m}
  {
    var m := s.rows[id].md5;
    SumWithout(Sizes(s.rows), id);
    assert Sizes(s.rows) - {id} == Sizes(s.rows - {id});
    assert HasRow(s.rows, m);
    forall x | x != m ensures HasRow(s.rows, x) ==> HasRow(s.rows - {id}, x) {
      if HasRow(s.rows, x) {
        var y :| y in s.rows && !s.rows[y].IsDir() && s.rows[y].md5 == x;
        assert y in s.rows - {id} && (s.rows - {id})[y] == s.rows[y];
      }
    }
  }

  lemma WithoutTwice(s: Store, a: set<nat>, b: set<nat>)
    ensures Without(Without(s, a), b) == Without(s, a + b)
  {
    var first := s.rows - a;
    assert first - b == s.rows - (a + b);
    forall m ensures HasRow(first, m) ==> HasRow(s.rows, m) {
      HasRowLess(s.rows, a, m);
    }
    forall m ensures HasRow(first - b, m) ==> HasRow(first, m) {
      HasRowLess(first, b, m);
    }
  }

  lemma HasRowLess(rows: Table, gone: set<nat>, m: string)
    ensures HasRow(rows - gone, m) ==> HasRow(rows, m)
  {
    if HasRow(rows - gone, m) {
      var id :| id in rows - gone && !(rows - gone)[id].IsDir() && (rows - gone)[id].md5 == m;
      assert id in rows && rows[id] == (rows - gone)[id];
    }
  }

  /** Removing any rows leaves a good store. */
  lemma WithoutKeepsStore(s: Store, gone: set<nat>)
    requires StoreOk(s)
    ensures StoreOk(Without(s, gone))
  {
    var s' := Without(s, gone);
    assert forall id :: id in s'.rows ==> id in s.rows && s'.rows[id] == s.rows[id];
    forall id | id in s'.rows && !s'.rows[id].IsDir() ensures s'.rows[id].md5 in s'.blobs {
      assert HasRow(s'.rows, s'.rows[id].md5);
    }
    WithoutKeepsContent(s.rows, gone);
  }

  /** Removing rows together with all below them keeps the tree. */
  lemma WithoutKeepsTree(rows: Table, gone: set<nat>)
    requires TreeOk(rows) && forall x :: x in rows && rows[x].parent in gone ==> x in gone
    ensures TreeOk(rows - gone)
  {
    forall id | id in rows - gone ensures Placed(rows - gone, id) {
      assert Placed(rows, id);
    }
  }

  /** For the directories it is enough that no directory stays behind. */
  lemma WithoutKeepsDirs(rows: Table, gone: set<nat>)
    requires DirsOk(rows) && forall x :: x in rows && rows[x].IsDir() && rows[x].parent in gone ==> x in gone
    ensures DirsOk(rows - gone)
  {
    forall id | id in rows - gone && (rows - gone)[id].IsDir() ensures Placed(rows - gone, id) {
      assert Placed(rows, id);
    }
  }

  lemma WithoutKeepsContent(rows: Table, gone: set<nat>)
    requires ContentOk(rows)
    ensures ContentOk(rows - gone)
  {
    assert forall id :: id in rows - gone ==> id in rows && (rows - gone)[id] == rows[id];
  }

  /** What deleting directory d leaves: everything below is removed as it should be, then
      the row of d, if it is still there, is dropped.
   */
  ghost function DirDeleted(s: Store, d: nat): Store {
    if d == 0 then s
    else
      var mid := Without(s, Beneath(s.rows, d));
      mid.(rows := mid.rows - {d})
  }

  /** So of the rows exactly the directory's subtree goes, whatever d is. */
  lemma DirDeletedRows(s: Store, d: nat)
    ensures DirDeleted(s, d).rows == if d == 0 then s.rows else s.rows - Subtree(s.rows, d)
  {
  }

  // ---------- the class ----------

  class MyDB {
    var rows: Table
    var used: int
    var capacity: nat
    var blobs: set<string>

    ghost function Value(): Store
      reads this
    {
      Store(rows, used, capacity, blobs)
    }

    ghost predicate Valid()
      reads this
    {
      StoreOk(Value())
    }

    constructor (capacity: nat)
      ensures Valid() && Value() == Store(map[], 0, capacity, {})
    {
      rows, used, this.capacity, blobs := map[], 0, capacity, {};
    }

    /** Inserts a file or directory row and returns its id. */
    method InsertFileData(name: string, md5: string, size: nat, parent: nat, suffix: string) returns (fileId: nat)
      modifies this
      ensures fileId == NextId(old(rows)) && RowAdded(old(rows), rows, fileId, name, md5, size, parent, suffix)
      ensures used == old(used) + size && capacity == old(capacity) && blobs == old(blobs)
      ensures Value() == Insert(old(Value()), name, md5, size, parent, suffix)
      ensures TreeOk(old(rows)) ==> (TreeOk(rows) <==> ParentOk(old(rows), parent))
      ensures UsedOk(old(Value())) ==> UsedOk(Value())
    {
      var dirGrade := 0;
      if parent in rows && rows[parent].IsDir() {
        dirGrade := rows[parent].grade + 1;
      }
      if rows == map[] {
        fileId := 1;
      } else {
        MaxExists(rows);
        var top :| top in rows && forall id :: id in rows ==> id <= top;
        MaxIsNext(rows, top);
        fileId := top + 1;
      }
      Inserted(Value(), name, md5, size, parent, suffix);
      rows := rows[fileId := Row(name, dirGrade, suffix, md5, size, parent)];
      used := used + size;
    }

    /** The hash of a file; directories have none. */
    method GetFileMd5(fileId: nat) returns (found: bool, md5: string)
      ensures found <==> fileId in rows && !rows[fileId].IsDir()
      ensures found ==> md5 == rows[fileId].md5
    {
      found := fileId in rows && !rows[fileId].IsDir();
      md5 := if found then rows[fileId].md5 else "";
    }

    /** Some row has the hash. */
    method GetFileExist(md5: string) returns (r: bool)
      ensures r <==> exists id :: id in rows && rows[id].md5 == md5
    {
      r := exists id :: id in rows && rows[id].md5 == md5;
    }

    /** Compares in unsigned 64-bit arithmetic: exact as long as the used capacity has not
        passed the total.
     */
    method GetIsEnoughSpace(size: nat) returns (r: bool)
      requires capacity < 0x1_0000_0000_0000_0000
      ensures r <==> (capacity - used) % 0x1_0000_0000_0000_0000 >= size
      ensures 0 <= used <= capacity ==> (r <==> used + size <= capacity)
    {
      r := (capacity - used) % 0x1_0000_0000_0000_0000 >= size;
    }

    /** Deletes one file row, gives back the size of some row with the same hash, and removes
        the content file if no other row has the hash.
     */
    method DeleteOneFile(fileId: nat) returns (ok: bool)
      modifies this
      ensures FileDeleted(old(Value()), Value(), fileId, ok)
    {
      NoFileToDelete(Value(), fileId);
      if fileId == 0 {
        return false;
      }
      var found, md5 := GetFileMd5(fileId);
      if !found {
        return false;
      }
      var first :| first in rows && rows[first].md5 == md5;
      var last := forall id :: id in rows && rows[id].md5 == md5 ==> id == fileId;
      OneFileRemoved(Value(), fileId, first, last);
      used := used - rows[first].size;
      rows := rows - {fileId};
      if last {
        if md5 !in blobs {
          return false;
        }
        blobs := blobs - {md5};
      }
      ok := true;
    }

    /** The ids of the rows below a directory, in the database's order. */
    method SelectChildren(d: nat) returns (ids: seq<nat>)
      ensures forall x :: x in ids <==> x in Children(rows, d)
      ensures forall i, j :: 0 <= i < j < |ids| ==> ids[i] != ids[j]
    {
      ids := [];
      var left := set x | x in rows && rows[x].parent == d;
      while left != {}
        invariant forall x :: x in Children(rows, d) <==> x in ids || x in left
        invariant forall x :: x in left ==> x !in ids
        invariant forall i, j :: 0 <= i < j < |ids| ==> ids[i] != ids[j]
        decreases left
      {
        var x :| x in left;
        ids := ids + [x];
        left := left - {x};
      }
    }

    /** Deletes a directory with everything below it: children first, then its row. It
        returns unless the directory is below itself. For an id without a row it still deletes
        what is left below; of a file it drops the row only.
     */
    method DeleteOneDir(fileId: nat) returns (ok: bool)
      requires Valid() && !Looped(rows, fileId)
      modifies this
      ensures Value() == DirDeleted(old(Value()), fileId)
      ensures ok <==> fileId in old(rows) - old(Beneath(rows, fileId))
      ensures fileId == 0 ==> Value() == old(Value())
      ensures fileId !in old(rows) || IsDirRow(old(rows), fileId) ==> Valid()
      ensures IsDirRow(old(rows), fileId) ==> ok && Value() == Without(old(Value()), old(Subtree(rows, fileId)))
      decreases if IsDirRow(rows, fileId) then 0 else 1, Subtree(rows, fileId), 1
    {
      if fileId == 0 {
        return false;
      }
      ghost var s := Value();
      var children := SelectChildren(fileId);
      ok := DeleteChildren(fileId, children);
      if !ok {
        return false;
      }
      BranchesAreAll(s.rows, children, fileId);
      DirRowDue(s, fileId);
      if fileId !in rows {
        rows := rows - {fileId};
        return false;
      }
      rows := rows - {fileId};
      ok := true;
    }

    /** The body of the loop: a directory recursively, anything else as a file. */
    method DeleteChild(c: nat, isDir: bool) returns (ok: bool)
      requires Valid() && c in rows && isDir == rows[c].IsDir() && !Looped(rows, c)
      modifies this
      ensures ok && Valid() && Value() == Without(old(Value()), old(Branch(rows, c)))
      decreases 0, if isDir then Subtree(rows, c) else {}, 2
    {
      if isDir {
        ok := DeleteOneDir(c);
      } else {
        ok := DeleteOneFile(c);
      }
    }

    /** The loop of DeleteOneDir over the children it selected. */
    method DeleteChildren(d: nat, children: seq<nat>) returns (ok: bool)
      requires Valid() && !Looped(rows, d) && AreChildren(rows, children, d)
      modifies this
      ensures ok && Valid() && Value() == Without(old(Value()), old(Branches(rows, children)))
      decreases if IsDirRow(rows, d) then 0 else 1, Subtree(rows, d), 0
    {
      ghost var s, gone := Value(), Branches(rows, []);
      var isDir := map x | x in rows :: rows[x].IsDir();
      NothingBelow(s);
      assert children[..0] == [];
      var i := 0;
      while i < |children|
        invariant 0 <= i <= |children| && Valid()
        invariant gone == Branches(s.rows, children[..i])
        invariant Value() == Without(s, gone)
      {
        NextChild(s, children, i, d, gone, Value());
        ok := DeleteChild(children[i], isDir[children[i]]);
        if !ok {
          return false;
        }
        i := i + 1;
        gone := Branches(s.rows, children[..i]);
      }
      assert children[..|children|] == children;
      ok := true;
    }
  }

  // ---------- following parents ----------

  lemma {:induction false} LeadsOn(rows: Table, x: nat, c: nat, n: nat, d: nat, m: nat)
    requires Leads(rows, x, c, n) && Leads(rows, c, d, m) && (n == 0 || m == 0 || IsDirRow(rows, c))
    ensures Leads(rows, x, d, n + m)
    decreases n
  {
    if n > 0 { LeadsOn(rows, rows[x].parent, c, n - 1, d, m); }
  }

  /** Where two numbers of steps lead, the shorter way is on the longer. */
  lemma {:induction false} OnTheWay(rows: Table, x: nat, a: nat, n: nat, b: nat, m: nat)
    requires n <= m && Leads(rows, x, a, n) && Leads(rows, x, b, m)
    ensures Leads(rows, a, b, m - n)
    ensures 0 < n < m ==> IsDirRow(rows, a)
    decreases n
  {
    if n > 0 {
      OnTheWay(rows, rows[x].parent, a, n - 1, b, m - 1);
    }
  }

  lemma {:induction false} LeadsMore(rows: Table, gone: set<nat>, x: nat, d: nat, n: nat)
    requires Leads(rows - gone, x, d, n)
    ensures Leads(rows, x, d, n)
    decreases n
  {
    if n > 0 { LeadsMore(rows, gone, rows[x].parent, d, n - 1); }
  }

  /** Rows removed elsewhere are on no way to d. */
  lemma {:induction false} LeadsStill(rows: Table, gone: set<nat>, x: nat, d: nat, n: nat)
    requires Leads(rows, x, d, n) && forall y :: y in gone ==> !Below(rows, y, d)
    ensures Leads(rows - gone, x, d, n)
    decreases n
  {
    if n > 0 {
      assert Below(rows, x, d);
      LeadsStill(rows, gone, rows[x].parent, d, n - 1);
      if n > 1 { assert Below(rows, rows[x].parent, d); }
    }
  }

  // ---------- recursive removal ----------

  ghost function Children(rows: Table, d: nat): set<nat> {
    set x | x in rows && rows[x].parent == d
  }

  ghost predicate AreChildren(rows: Table, children: seq<nat>, d: nat) {
    && (forall x :: x in children <==> x in Children(rows, d))
    && forall i, j :: 0 <= i < j < |children| ==> children[i] != children[j]
  }

  /** What goes with a child: a directory's subtree, of anything else itself. */
  ghost function Branch(rows: Table, c: nat): set<nat> {
    if IsDirRow(rows, c) then Subtree(rows, c) else {c}
  }

  ghost function Branches(rows: Table, children: seq<nat>): set<nat> {
    set i, x | 0 <= i < |children| && x in Branch(rows, children[i]) :: x
  }

  lemma InBranch(rows: Table, x: nat, c: nat)
    requires x in Branch(rows, c)
    ensures exists n: nat :: Leads(rows, x, c, n) && (n > 0 ==> IsDirRow(rows, c))
  {
    if x == c {
      assert Leads(rows, x, c, 0);
    } else {
      var n: nat :| n > 0 && Leads(rows, x, c, n);
    }
  }

  /** What is below d is in the branch of one of its children. */
  lemma {:induction false} ViaChild(rows: Table, x: nat, d: nat, n: nat) returns (c: nat)
    requires n > 0 && Leads(rows, x, d, n)
    ensures c in Children(rows, d) && x in Branch(rows, c)
    decreases n
  {
    if n == 1 {
      c := x;
    } else {
      c := ViaChild(rows, rows[x].parent, d, n - 1);
      InBranch(rows, rows[x].parent, c);
      var m: nat :| Leads(rows, rows[x].parent, c, m) && (m > 0 ==> IsDirRow(rows, c));
      assert Leads(rows, x, c, m + 1);
    }
  }

  lemma BranchIsBelow(rows: Table, x: nat, c: nat, d: nat)
    requires c in Children(rows, d) && x in Branch(rows, c)
    ensures Below(rows, x, d)
  {
    InBranch(rows, x, c);
    var n: nat :| Leads(rows, x, c, n) && (n > 0 ==> IsDirRow(rows, c));
    assert Leads(rows, c, d, 1);
    LeadsOn(rows, x, c, n, d, 1);
  }

  /** A directory is not in the branch of its own child, unless it is below itself. */
  lemma NotInChild(rows: Table, c: nat, d: nat)
    requires !Looped(rows, d) && c in Children(rows, d) && IsDirRow(rows, d)
    ensures d !in Branch(rows, c)
  {
    if d in Branch(rows, c) { BranchIsBelow(rows, d, c, d); }
  }

  /** And no child is below itself either. */
  lemma ChildNotLooped(rows: Table, c: nat, d: nat)
    requires !Looped(rows, d) && c in Children(rows, d)
    ensures !Looped(rows, c)
  {
    if Looped(rows, c) {
      var n: nat :| n > 0 && Leads(rows, c, c, n);
      assert Leads(rows, d, c, n - 1) && Leads(rows, c, d, 1);
      LeadsOn(rows, d, c, n - 1, d, 1);
      assert Below(rows, d, d);
    }
  }

  /** If one child's way passes another child, d is below itself. */
  lemma PastSibling(rows: Table, y: nat, a: nat, n: nat, b: nat, m: nat, d: nat)
    requires !Looped(rows, d) && a in Children(rows, d) && b in Children(rows, d) && n <= m
    requires Leads(rows, y, a, n) && Leads(rows, y, b, m) && (m > 0 ==> IsDirRow(rows, b))
    ensures a == b
  {
    OnTheWay(rows, y, a, n, b, m);
    if n < m {
      assert Leads(rows, d, b, m - n - 1) && Leads(rows, b, d, 1);
      LeadsOn(rows, d, b, m - n - 1, d, 1);
      assert Below(rows, d, d);
    }
  }

  /** Branches of different children have nothing in common. */
  lemma BranchesDisjoint(rows: Table, y: nat, a: nat, b: nat, d: nat)
    requires !Looped(rows, d) && a in Children(rows, d) && b in Children(rows, d)
    requires y in Branch(rows, a) && y in Branch(rows, b)
    ensures a == b
  {
    InBranch(rows, y, a);
    InBranch(rows, y, b);
    var n: nat :| Leads(rows, y, a, n) && (n > 0 ==> IsDirRow(rows, a));
    var m: nat :| Leads(rows, y, b, m) && (m > 0 ==> IsDirRow(rows, b));
    if n <= m { PastSibling(rows, y, a, n, b, m, d); } else { PastSibling(rows, y, b, m, a, n, d); }
  }

  /** The branch of c is still whole when rows outside it are gone. */
  lemma BranchKept(rows: Table, gone: set<nat>, c: nat)
    requires c in rows && gone !! Branch(rows, c)
    ensures c in rows - gone && Branch(rows - gone, c) == Branch(rows, c)
    ensures Looped(rows - gone, c) ==> Looped(rows, c)
  {
    var less := rows - gone;
    forall x | x in Branch(less, c) ensures x in Branch(rows, c) {
      InBranch(less, x, c);
      var n: nat :| Leads(less, x, c, n) && (n > 0 ==> IsDirRow(less, c));
      LeadsMore(rows, gone, x, c, n);
    }
    forall x | x in Branch(rows, c) ensures x in Branch(less, c) {
      InBranch(rows, x, c);
      var n: nat :| Leads(rows, x, c, n) && (n > 0 ==> IsDirRow(rows, c));
      if n > 0 {
        forall y | y in gone ensures !Below(rows, y, c) {
          if Below(rows, y, c) { BelowIsRow(rows, y, c); }
        }
        LeadsStill(rows, gone, x, c, n);
      }
    }
    if Looped(less, c) {
      var n: nat :| n > 0 && Leads(less, c, c, n);
      LeadsMore(rows, gone, c, c, n);
    }
  }

  lemma BelowIsRow(rows: Table, y: nat, c: nat)
    requires Below(rows, y, c)
    ensures y in rows
  {
  }

  lemma BranchesSnoc(rows: Table, children: seq<nat>, i: nat)
    requires i < |children|
    ensures Branches(rows, children[..i + 1]) == Branches(rows, children[..i]) + Branch(rows, children[i])
  {
    var longer := children[..i + 1];
    assert longer[i] == children[i];
    assert forall k :: 0 <= k < i ==> longer[k] == children[..i][k];
  }

  /** The store in which the branches of the first children are gone still has the next one's,
      and removing that removes one child more.
   */
  lemma NextChild(s: Store, children: seq<nat>, i: nat, d: nat, gone: set<nat>, mid: Store)
    requires !Looped(s.rows, d) && i < |children| && AreChildren(s.rows, children, d)
    requires gone == Branches(s.rows, children[..i]) && mid == Without(s, gone)
    ensures var c := children[i];
            && c in s.rows && c in mid.rows && mid.rows[c] == s.rows[c] && !Looped(mid.rows, c)
            && Without(mid, Branch(mid.rows, c)) == Without(s, Branches(s.rows, children[..i + 1]))
            && (IsDirRow(s.rows, c) && IsDirRow(s.rows, d) ==> Subtree(mid.rows, c) < Subtree(s.rows, d))
  {
    var c := children[i];
    assert c in children;
    forall y | y in gone ensures y !in Branch(s.rows, c) {
      var k :| 0 <= k < i && y in Branch(s.rows, children[..i][k]);
      assert children[k] in children;
      if y in Branch(s.rows, c) { BranchesDisjoint(s.rows, y, children[k], c, d); }
    }
    BranchKept(s.rows, gone, c);
    ChildNotLooped(s.rows, c, d);
    BranchesSnoc(s.rows, children, i);
    WithoutTwice(s, gone, Branch(s.rows, c));
    if IsDirRow(s.rows, d) {
      NotInChild(s.rows, c, d);
      forall x | x in Branch(s.rows, c) ensures x in Subtree(s.rows, d) {
        BranchIsBelow(s.rows, x, c, d);
        BelowIsRow(s.rows, x, d);
      }
      assert d in Subtree(s.rows, d);
    }
  }

  lemma NothingBelow(s: Store)
    ensures Without(s, Branches(s.rows, [])) == s
  {
    assert Branches(s.rows, []) == {};
    assert s.rows - {} == s.rows;
  }

  /** All branches together are what is below the directory. */
  lemma BranchesAreAll(rows: Table, children: seq<nat>, d: nat)
    requires AreChildren(rows, children, d)
    ensures Branches(rows, children) == Beneath(rows, d)
  {
    forall x | x in Branches(rows, children) ensures x in Beneath(rows, d) {
      var i :| 0 <= i < |children| && x in Branch(rows, children[i]);
      assert children[i] in children;
      BranchIsBelow(rows, x, children[i], d);
      BelowIsRow(rows, x, d);
    }
    forall x | x in Beneath(rows, d) ensures x in Branches(rows, children) {
      var n: nat :| n > 0 && Leads(rows, x, d, n);
      var c := ViaChild(rows, x, d, n);
      assert c in children;
      var i :| 0 <= i < |children| && children[i] == c;
    }
  }

  /** What is left to do for the row itself when everything below is gone. */
  lemma DirRowDue(s: Store, d: nat)
    requires StoreOk(s) && d != 0 && !Looped(s.rows, d)
    ensures var mid := Without(s, Beneath(s.rows, d));
            && DirDeleted(s, d) == mid.(rows := mid.rows - {d})
            && (d in mid.rows <==> d in s.rows - Beneath(s.rows, d))
            && (d !in s.rows ==> DirDeleted(s, d) == mid && StoreOk(mid))
            && (IsDirRow(s.rows, d) ==> d in mid.rows && StoreOk(DirDeleted(s, d))
                                        && DirDeleted(s, d) == Without(s, Subtree(s.rows, d)))
  {
    WithoutKeepsStore(s, Beneath(s.rows, d));
    var mid := Without(s, Beneath(s.rows, d));
    if d !in s.rows { assert mid.rows - {d} == mid.rows; }
    if IsDirRow(s.rows, d) { DirRowLast(s, d); }
  }

  /** For a directory that is not below itself, all that is removing its subtree. */
  lemma DirRowLast(s: Store, d: nat)
    requires StoreOk(s) && IsDirRow(s.rows, d) && !Looped(s.rows, d)
    ensures d !in Beneath(s.rows, d)
    ensures DirDeleted(s, d) == Without(s, Subtree(s.rows, d)) && StoreOk(DirDeleted(s, d))
  {
    var below := Beneath(s.rows, d);
    WithoutKeepsStore(s, below);
    EmptyDirRemoved(Without(s, below), d);
    WithoutTwice(s, below, {d});
    WithoutKeepsStore(s, Subtree(s.rows, d));
  }

  /** The subtree of a directory takes along all directories whose parent is in it, and in a
      tree everything whose parent is in it.
   */
  lemma SubtreeClosed(rows: Table, d: nat)
    requires DirsOk(rows)
    ensures forall x :: x in rows && Placed(rows, x) && rows[x].parent in Subtree(rows, d) ==> x in Subtree(rows, d)
  {
    SubtreeIsLeast(rows, d, {});
    forall x | x in rows && Placed(rows, x) && rows[x].parent in Subtree(rows, d) ensures x in Subtree(rows, d) {
      assert rows[x].parent != 0 ==> IsDirRow(rows, rows[x].parent);
      if rows[x].parent == 0 {
        assert rows[x].parent == d || 0 in rows;
      }
      assert HangsFrom(rows, x, d, Subtree(rows, d));
    }
  }

  // ---------- when the recursion returns ----------

  /** The order in which the database lists the children, at every table, directory and depth
      of nesting.
   */
  ghost predicate Lists(order: (Table, nat, nat) -> seq<nat>) {
    forall rows: Table, d: nat, depth: nat :: AreChildren(rows, order(rows, d, depth), d)
  }

  /** The call of deleteOneDir for d on this table returns with at most so many calls nested
      in one another: at once for id 0, else when its loop does.
   */
  ghost predicate CallReturns(rows: Table, d: nat, fuel: nat, order: (Table, nat, nat) -> seq<nat>)
    decreases fuel, 0
  {
    fuel > 0 && (d == 0 || LoopReturns(rows, rows, order(rows, d, fuel), fuel - 1, order))
  }

  /** The rest of a loop over the children that were selected from the first table, on what the
      children before have left: one that was a directory is a nested call, and when that has
      returned its branch is gone, as DeleteChild promises. In a good store none fails, so the
      loop is never left early.
   */
  ghost predicate LoopReturns(was: Table, rows: Table, children: seq<nat>, fuel: nat, order: (Table, nat, nat) -> seq<nat>)
    decreases fuel, 1 + |children|
  {
    children == []
    || ((IsDirRow(was, children[0]) ==> CallReturns(rows, children[0], fuel, order))
        && LoopReturns(was, rows - Branch(rows, children[0]), children[1..], fuel, order))
  }

  ghost predicate CallEnds(rows: Table, d: nat, order: (Table, nat, nat) -> seq<nat>) {
    exists fuel: nat :: CallReturns(rows, d, fuel, order)
  }

  lemma SmallerSet(a: set<nat>, b: set<nat>)
    requires a < b
    ensures |a| < |b|
  {
    var x :| x in b && x !in a;
    assert a <= b - {x};
    assert |a| <= |b - {x}| by { assert (b - {x}) - a + a == b - {x}; }
  }

  /** Less is below a child than below the directory, whatever is gone elsewhere. */
  lemma LessBeneath(rows: Table, gone: set<nat>, c: nat, d: nat)
    requires !Looped(rows, d) && c in Children(rows, d) && IsDirRow(rows, c)
    ensures |Beneath(rows - gone, c)| < |Beneath(rows, d)|
  {
    ChildNotLooped(rows, c, d);
    forall x | x in Beneath(rows - gone, c) ensures x in Beneath(rows, c) && x in Beneath(rows, d) {
      var n: nat :| n > 0 && Leads(rows - gone, x, c, n);
      LeadsMore(rows, gone, x, c, n);
      assert Leads(rows, c, d, 1);
      LeadsOn(rows, x, c, n, d, 1);
    }
    assert Leads(rows, c, d, 1);
    assert c in Beneath(rows, d) && c !in Beneath(rows, c);
    SmallerSet(Beneath(rows - gone, c), Beneath(rows, d));
  }

  /** A call for a directory that is not below itself returns. */
  lemma {:induction false} ReturnsWithin(rows: Table, d: nat, fuel: nat, order: (Table, nat, nat) -> seq<nat>)
    requires Lists(order) && !Looped(rows, d) && fuel > |Beneath(rows, d)|
    ensures CallReturns(rows, d, fuel, order)
    decreases fuel, 0
  {
    if d != 0 {
      var children := order(rows, d, fuel);
      assert AreChildren(rows, children, d);
      LoopWithin(rows, d, children, 0, fuel - 1, order);
      NothingBelow(Store(rows, 0, 0, {}));
      assert children[..0] == [] && children[0..] == children;
    }
  }

  lemma {:induction false} LoopWithin(rows: Table, d: nat, children: seq<nat>, i: nat, fuel: nat,
                                      order: (Table, nat, nat) -> seq<nat>)
    requires Lists(order) && !Looped(rows, d) && AreChildren(rows, children, d)
    requires i <= |children| && fuel >= |Beneath(rows, d)|
    ensures LoopReturns(rows, rows - Branches(rows, children[..i]), children[i..], fuel, order)
    decreases fuel, 1 + |children| - i
  {
    if i < |children| {
      var c, gone, s := children[i], Branches(rows, children[..i]), Store(rows, 0, 0, {});
      NextChild(s, children, i, d, gone, Without(s, gone));
      if IsDirRow(rows, c) {
        assert c in children;
        LessBeneath(rows, gone, c, d);
        ReturnsWithin(rows - gone, c, fuel, order);
      }
      LoopWithin(rows, d, children, i + 1, fuel, order);
      assert children[i..][0] == c && children[i..][1..] == children[i + 1..];
      assert rows - gone - Branch(rows - gone, c) == rows - Branches(rows, children[..i + 1]);
    }
  }

  /** Everything a directory below itself leads to is below itself. */
  lemma {:induction false} LoopedAlong(rows: Table, z: nat, x: nat, m: nat)
    requires Looped(rows, z) && Leads(rows, z, x, m)
    ensures Looped(rows, x)
    decreases m
  {
    if m > 0 {
      var n: nat :| n > 0 && Leads(rows, z, z, n);
      var p := rows[z].parent;
      assert Leads(rows, z, p, 1);
      LeadsOn(rows, p, z, n - 1, p, 1);
      assert Below(rows, p, p);
      LoopedAlong(rows, p, x, m - 1);
    }
  }

  lemma {:induction false} LoopKept(rows: Table, gone: set<nat>, y: nat, c: nat, n: nat)
    requires Looped(rows, y) && Leads(rows, y, c, n) && forall z :: z in gone ==> !Looped(rows, z)
    ensures Leads(rows - gone, y, c, n)
    decreases n
  {
    if n > 0 {
      var p := rows[y].parent;
      assert Leads(rows, y, p, 1);
      LoopedAlong(rows, y, p, 1);
      LoopKept(rows, gone, p, c, n - 1);
    }
  }

  /** Deleting a child that is not below itself leaves those that are. */
  lemma LoopOutlives(rows: Table, x: nat, c: nat)
    requires Looped(rows, c) && !Looped(rows, x)
    ensures Looped(rows - Branch(rows, x), c)
  {
    forall z | z in Branch(rows, x) ensures !Looped(rows, z) {
      InBranch(rows, z, x);
      var m: nat :| Leads(rows, z, x, m) && (m > 0 ==> IsDirRow(rows, x));
      if Looped(rows, z) { LoopedAlong(rows, z, x, m); }
    }
    var n: nat :| n > 0 && Leads(rows, c, c, n);
    LoopKept(rows, Branch(rows, x), c, c, n);
  }

  /** A directory below itself has a child below itself. */
  lemma LoopedChild(rows: Table, d: nat) returns (c: nat)
    requires Looped(rows, d)
    ensures c in Children(rows, d) && Looped(rows, c)
  {
    var n: nat :| n > 0 && Leads(rows, d, d, n);
    c := ViaChild(rows, d, d, n);
    InBranch(rows, d, c);
    var m: nat :| Leads(rows, d, c, m) && (m > 0 ==> IsDirRow(rows, c));
    LoopedAlong(rows, d, c, m);
  }

  lemma {:induction false} LoopedNever(rows: Table, d: nat, fuel: nat, order: (Table, nat, nat) -> seq<nat>)
    requires Lists(order) && Looped(rows, d) && 0 !in rows
    ensures !CallReturns(rows, d, fuel, order)
    decreases fuel, 0
  {
    if fuel > 0 {
      var c := LoopedChild(rows, d);
      var children := order(rows, d, fuel);
      assert AreChildren(rows, children, d);
      LoopNever(rows, rows, children, c, fuel - 1, order);
    }
  }

  lemma {:induction false} LoopNever(was: Table, rows: Table, children: seq<nat>, c: nat, fuel: nat,
                                     order: (Table, nat, nat) -> seq<nat>)
    requires Lists(order) && c in children && Looped(rows, c) && 0 !in rows
    requires forall x :: IsDirRow(rows, x) ==> IsDirRow(was, x)
    ensures !LoopReturns(was, rows, children, fuel, order)
    decreases fuel, 1 + |children|
  {
    var x := children[0];
    if Looped(rows, x) {
      LoopedNever(rows, x, fuel, order);
    } else {
      LoopOutlives(rows, x, c);
      LoopNever(was, rows - Branch(rows, x), children[1..], c, fuel, order);
    }
  }

  /** Deleting a directory returns exactly if it is not below itself, in whatever order the
      database lists the children.
   */
  lemma DeletionReturnsIff(rows: Table, d: nat, order: (Table, nat, nat) -> seq<nat>)
    requires Lists(order) && 0 !in rows
    ensures CallEnds(rows, d, order) <==> !Looped(rows, d)
  {
    if Looped(rows, d) {
      forall fuel: nat ensures !CallReturns(rows, d, fuel, order) { LoopedNever(rows, d, fuel, order); }
    } else {
      var fuel: nat := |Beneath(rows, d)| + 1;
      ReturnsWithin(rows, d, fuel, order);
      assert CallReturns(rows, d, fuel, order);
    }
  }

  /** A directory put under an id that was just freed becomes its own parent. */
  lemma OwnParentExample(s: Store, name: string, order: (Table, nat, nat) -> seq<nat>)
    requires Lists(order) && 0 !in s.rows
    ensures var id := NextId(s.rows);
            var rows := Insert(s, name, "", 0, id, "d").rows;
            Looped(rows, id) && !CallEnds(rows, id, order)
  {
    var id := NextId(s.rows);
    var rows := Insert(s, name, "", 0, id, "d").rows;
    assert Leads(rows, id, id, 1);
    DeletionReturnsIff(rows, id, order);
  }

  /** An empty directory's row can go without any other change. */
  lemma EmptyDirRemoved(s: Store, d: nat)
    requires StoreOk(s) && d in s.rows && s.rows[d].IsDir()
    ensures Without(s, {d}) == s.(rows := s.rows - {d})
  {
    OneFileUsed(s.rows, d, d);
    forall m ensures HasRow(s.rows, m) ==> HasRow(s.rows - {d}, m) {
      if HasRow(s.rows, m) {
        var x :| x in s.rows && !s.rows[x].IsDir() && s.rows[x].md5 == m;
        assert x in s.rows - {d} && (s.rows - {d})[x] == s.rows[x];
      }
    }
  }

  /** In a good store deleting succeeds exactly for files and removes just that row. */
  ghost predicate FileDeleted(s: Store, s': Store, id: nat, ok: bool) {
    StoreOk(s) ==>
      && StoreOk(s') && (ok <==> id in s.rows && !s.rows[id].IsDir())
      && s' == if ok then Without(s, {id}) else s
  }

  lemma NoFileToDelete(s: Store, id: nat)
    ensures id == 0 || id !in s.rows || s.rows[id].IsDir() ==> FileDeleted(s, s, id, false)
  {
  }

  /** What DeleteOneFile does to a good store is removing that row. */
  lemma OneFileRemoved(s: Store, id: nat, first: nat, last: bool)
    requires id in s.rows && !s.rows[id].IsDir()
    requires first in s.rows && s.rows[first].md5 == s.rows[id].md5
    requires last <==> forall x :: x in s.rows && s.rows[x].md5 == s.rows[id].md5 ==> x == id
    ensures StoreOk(s) ==> s.rows[id].md5 in s.blobs
    ensures FileDeleted(s, Store(s.rows - {id}, s.used - s.rows[first].size, s.capacity,
                                 if last then s.blobs - {s.rows[id].md5} else s.blobs), id, true)
  {
    if StoreOk(s) {
      WithoutKeepsStore(s, {id});
      OneFileUsed(s.rows, id, first);
      OneFileBlobs(s, id, last);
    }
  }

  lemma OneFileUsed(rows: Table, id: nat, first: nat)
    requires ContentOk(rows) && id in rows && first in rows && rows[first].md5 == rows[id].md5
    ensures Sum(Sizes(rows)) - Sum(Sizes(rows - {id})) == rows[first].size
  {
    SumWithout(Sizes(rows), id);
    assert Sizes(rows) - {id} == Sizes(rows - {id});
  }

  /** Removing one file row removes its content file exactly if no other row has the hash. */
  lemma OneFileBlobs(s: Store, id: nat, last: bool)
    requires StoreOk(s) && id in s.rows && !s.rows[id].IsDir()
    requires last <==> forall x :: x in s.rows && s.rows[x].md5 == s.rows[id].md5 ==> x == id
    ensures s.rows[id].md5 in s.blobs
    ensures Without(s, {id}).blobs == if last then s.blobs - {s.rows[id].md5} else s.blobs
  {
    var md5, rows := s.rows[id].md5, s.rows - {id};
    assert HasRow(s.rows, md5);
    forall m | m != md5 ensures HasRow(s.rows, m) ==> HasRow(rows, m) {
      if HasRow(s.rows, m) {
        var x :| x in s.rows && !s.rows[x].IsDir() && s.rows[x].md5 == m;
        assert x in rows && rows[x] == s.rows[x];
      }
    }
    if last {
      assert !HasRow(rows, md5);
    } else {
      var x :| x in s.rows && s.rows[x].md5 == md5 && x != id;
      assert x in rows && rows[x] == s.rows[x] && !rows[x].IsDir();
      assert HasRow(rows, md5);
    }
  }
}
