/** The client's view of the user's files: items, the list of each folder, and the size of
    every folder, computed recursively at first and kept up to date by walking upwards.
 */
module FileSystem {
  import opened Sums
  import FileServer
  import MyDB

  /** The fixed part of an item; its size is kept apart because it changes. */
  datatype Item = Item(isDir: bool, grade: nat, parent: nat)

  type Items = map<nat, Item>

  /** One entry of the listing a server sends. */
  datatype FileInfo = FileInfo(id: nat, isDir: bool, grade: nat, parent: nat, size: nat)

  function ItemOf(info: FileInfo): Item {
    Item(info.isDir, info.grade, info.parent)
  }

  function Ids(vet: seq<FileInfo>): set<nat> {
    set info | info in vet :: info.id
  }

  /** A folder's own folder is the root or has an entry of its own, anywhere in the listing;
      a file's may be missing, since a file can outlive its folder on the server.
   */
  predicate Settled(vet: seq<FileInfo>, info: FileInfo) {
    if info.parent == 0 then info.grade == 0
    else exists dir :: dir in vet && dir.id == info.parent && dir.isDir && info.grade == dir.grade + 1
  }

  ghost predicate Listing(vet: seq<FileInfo>) {
    && (forall info :: info in vet ==> info.id != 0)
    && (forall info {:trigger Settled(vet, info)} :: info in vet && info.isDir ==> Settled(vet, info))
    && (forall i, j :: 0 <= i < j < |vet| ==> vet[i].id != vet[j].id)
  }

  /** The items are those of the listing, each with its own kind, grade and folder. */
  ghost predicate Shows(items: Items, vet: seq<FileInfo>) {
    && items.Keys == Ids(vet)
    && forall info :: info in vet ==>
         items[info.id].isDir == info.isDir && items[info.id].grade == info.grade && items[info.id].parent == info.parent
  }

  /** The item hangs in the root, with grade 0, or in a known folder one grade below it. */
  predicate Hung(items: Items, x: nat)
    requires x in items
  {
    var p := items[x].parent;
    if p == 0 then items[x].grade == 0
    else p in items && items[p].isDir && items[x].grade == items[p].grade + 1
  }

  predicate IsFolder(items: Items, x: nat) {
    x in items && items[x].isDir
  }

  /** One item more, in the given folder, with grade 0 if there is no such folder. */
  ghost predicate IsNewItem(was: Items, now: Items, id: nat, isDir: bool, parent: nat) {
    && now.Keys == was.Keys + {id} && (forall x :: x in was && x != id ==> now[x] == was[x])
    && now[id].isDir == isDir && now[id].parent == parent
    && now[id].grade == if IsFolder(was, parent) then was[parent].grade + 1 else 0
  }

  lemma NewItemIs(was: Items, id: nat, item: Item)
    requires item.grade == if IsFolder(was, item.parent) then was[item.parent].grade + 1 else 0
    ensures IsNewItem(was, was[id := item], id, item.isDir, item.parent)
  {
  }

  /** All folders hang together. A file may hang in an unknown folder, and is then in none. */
  ghost predicate Forest(items: Items) {
    0 !in items && forall x :: IsFolder(items, x) ==> Hung(items, x)
  }

  /** x is d or lies somewhere below d. */
  predicate Under(items: Items, x: nat, d: nat)
    decreases if IsFolder(items, x) then 0 else 1, if x in items then items[x].grade else 0
  {
    x == d || (x in items && IsFolder(items, items[x].parent)
               && (items[x].isDir ==> items[items[x].parent].grade < items[x].grade)
               && Under(items, items[x].parent, d))
  }

  /** The files below d with their sizes. */
  ghost function FilesBelow(items: Items, sizes: map<nat, nat>, d: nat): map<nat, nat>
    requires sizes.Keys == items.Keys
  {
    map x | x in items && !items[x].isDir && Under(items, x, d) :: sizes[x]
  }

  /** What the size of d should be: the sum over all files below it. */
  ghost function TotalBelow(items: Items, sizes: map<nat, nat>, d: nat): nat
    requires sizes.Keys == items.Keys
  {
    Sum(FilesBelow(items, sizes, d))
  }

  /** The size kept for d is what it should be. */
  ghost predicate SizeRight(items: Items, sizes: map<nat, nat>, d: nat)
    requires sizes.Keys == items.Keys && d in items
  {
    sizes[d] == TotalBelow(items, sizes, d)
  }

  // ---------- lemmas ----------

  lemma {:induction false} UnderGrade(items: Items, x: nat, d: nat)
    requires x in items && Under(items, x, d) && x != d
    ensures d in items && items[d].isDir && (items[x].isDir ==> items[d].grade < items[x].grade)
    decreases if items[x].isDir then 0 else 1, items[x].grade
  {
    if items[x].parent != d { UnderGrade(items, items[x].parent, d); }
  }

  /** A file has only itself below it, so its own size is its total. */
  lemma FileTotal(items: Items, sizes: map<nat, nat>, x: nat)
    requires Forest(items) && sizes.Keys == items.Keys && x in items && !items[x].isDir
    ensures TotalBelow(items, sizes, x) == sizes[x]
  {
    forall y | y in items && Under(items, y, x) ensures y == x {
      if y != x { UnderGrade(items, y, x); }
    }
    assert FilesBelow(items, sizes, x) == map[x := sizes[x]];
    SumWithout(map[x := sizes[x]], x);
    assert map[x := sizes[x]] - {x} == map[];
  }

  /** Of two items above x one is above the other. */
  lemma {:induction false} AboveInLine(items: Items, x: nat, a: nat, b: nat)
    requires x in items && Under(items, x, a) && Under(items, x, b)
    ensures Under(items, a, b) || Under(items, b, a)
    decreases if items[x].isDir then 0 else 1, items[x].grade
  {
    if x != a && x != b { AboveInLine(items, items[x].parent, a, b); }
  }

  /** What is below a folder but not the folder is below one of its children. */
  lemma {:induction false} UnderViaChild(items: Items, x: nat, d: nat) returns (c: nat)
    requires x in items && Under(items, x, d) && x != d
    ensures c in items && items[c].parent == d && Under(items, x, c)
    decreases if items[x].isDir then 0 else 1, items[x].grade
  {
    if items[x].parent == d { c := x; } else { c := UnderViaChild(items, items[x].parent, d); }
  }

  lemma {:induction false} UnderChild(items: Items, x: nat, c: nat, d: nat)
    requires Forest(items) && x in items && c in items && items[c].parent == d && IsFolder(items, d)
    requires Under(items, x, c)
    ensures Under(items, x, d)
    decreases if items[x].isDir then 0 else 1, items[x].grade
  {
    if x != c { UnderChild(items, items[x].parent, c, d); }
    else if items[c].isDir { assert Hung(items, c); }
  }

  /** The files below the first children in a list. */
  ghost function FilesBelowAll(items: Items, sizes: map<nat, nat>, children: seq<nat>): map<nat, nat>
    requires sizes.Keys == items.Keys
  {
    map x | x in items && !items[x].isDir && (exists i :: 0 <= i < |children| && Under(items, x, children[i])) :: sizes[x]
  }

  ghost predicate ChildrenOf(items: Items, children: seq<nat>, d: nat) {
    && (forall x :: x in children <==> x in items && items[x].parent == d)
    && (forall i, j :: 0 <= i < j < |children| ==> children[i] != children[j])
  }

  /** One child more adds exactly what is below it. */
  lemma OneChildMore(items: Items, sizes: map<nat, nat>, children: seq<nat>, i: nat, d: nat)
    requires Forest(items) && sizes.Keys == items.Keys && i < |children| && ChildrenOf(items, children, d)
    ensures children[i] in items
    ensures Sum(FilesBelowAll(items, sizes, children[..i + 1]))
         == Sum(FilesBelowAll(items, sizes, children[..i])) + TotalBelow(items, sizes, children[i])
  {
    assert children[i] in children;
    OneChildMoreFiles(items, sizes, children, i);
    forall x, k | x in items && 0 <= k < i && Under(items, x, children[..i][k]) ensures !Under(items, x, children[i]) {
      assert children[k] in children;
      if Under(items, x, children[i]) { SiblingsDisjoint(items, x, children[k], children[i], children, d); }
    }
    SumDisjoint(FilesBelowAll(items, sizes, children[..i]), FilesBelow(items, sizes, children[i]));
  }

  lemma OneChildMoreFiles(items: Items, sizes: map<nat, nat>, children: seq<nat>, i: nat)
    requires sizes.Keys == items.Keys && i < |children|
    ensures FilesBelowAll(items, sizes, children[..i + 1])
         == FilesBelowAll(items, sizes, children[..i]) + FilesBelow(items, sizes, children[i])
  {
    var longer := children[..i + 1];
    assert longer[i] == children[i];
    assert forall k :: 0 <= k < i ==> longer[k] == children[..i][k];
  }

  lemma SiblingsDisjoint(items: Items, x: nat, a: nat, b: nat, children: seq<nat>, d: nat)
    requires Forest(items) && ChildrenOf(items, children, d) && a in children && b in children
    requires x in items && Under(items, x, a) && Under(items, x, b)
    ensures a == b
  {
    assert a in items && b in items;
    AboveInLine(items, x, a, b);
    if a != b {
      if Under(items, a, b) { NotUnderSibling(items, a, b, d); } else { NotUnderSibling(items, b, a, d); }
    }
  }

  lemma NotUnderSibling(items: Items, a: nat, b: nat, d: nat)
    requires Forest(items) && a in items && b in items && a != b && items[a].parent == d && items[b].parent == d
    ensures !Under(items, a, b)
  {
    assert items[b].isDir ==> Hung(items, b);
    if Under(items, a, b) && d != b { UnderGrade(items, d, b); }
  }

  /** All children together have what the folder has. */
  lemma AllChildren(items: Items, sizes: map<nat, nat>, children: seq<nat>, d: nat)
    requires Forest(items) && sizes.Keys == items.Keys && d in items && items[d].isDir && ChildrenOf(items, children, d)
    ensures FilesBelowAll(items, sizes, children) == FilesBelow(items, sizes, d)
  {
    forall x | x in items && !items[x].isDir && Under(items, x, d)
      ensures exists i :: 0 <= i < |children| && Under(items, x, children[i])
    {
      var c := UnderViaChild(items, x, d);
      assert c in children;
      var i :| 0 <= i < |children| && children[i] == c;
    }
    forall x, i | x in items && 0 <= i < |children| && Under(items, x, children[i]) ensures Under(items, x, d) {
      assert children[i] in children;
      UnderChild(items, x, children[i], d);
    }
  }

  /** Only the sizes of folders differ: the files below anything are the same. */
  ghost predicate SameFiles(items: Items, a: map<nat, nat>, b: map<nat, nat>) {
    a.Keys == b.Keys == items.Keys && forall x :: x in items && !items[x].isDir ==> a[x] == b[x]
  }

  lemma SameTotals(items: Items, a: map<nat, nat>, b: map<nat, nat>, d: nat)
    requires SameFiles(items, a, b)
    ensures TotalBelow(items, a, d) == TotalBelow(items, b, d)
  {
    assert FilesBelow(items, a, d) == FilesBelow(items, b, d);
  }

  // ---------- recomputed sizes ----------

  function Members(children: seq<nat>): set<nat> {
    set c | c in children
  }

  ghost predicate UnderAny(items: Items, y: nat, roots: set<nat>) {
    exists c :: c in roots && Under(items, y, c)
  }

  /** From `was` to `now` the sizes of everything under the roots have been put right, and
      nothing else has changed.
   */
  ghost predicate Redone(items: Items, was: map<nat, nat>, now: map<nat, nat>, roots: set<nat>) {
    && SameFiles(items, was, now)
    && forall y :: y in items ==> if UnderAny(items, y, roots) then SizeRight(items, now, y) else now[y] == was[y]
  }

  lemma RedoneMore(items: Items, a: map<nat, nat>, b: map<nat, nat>, c: map<nat, nat>, roots: set<nat>, x: nat)
    requires Redone(items, a, b, roots) && Redone(items, b, c, {x})
    requires forall y :: y in items && UnderAny(items, y, roots) ==> !Under(items, y, x)
    ensures Redone(items, a, c, roots + {x})
  {
    forall y | y in items ensures if UnderAny(items, y, roots + {x}) then SizeRight(items, c, y) else c[y] == a[y] {
      SameTotals(items, b, c, y);
      assert UnderAny(items, y, {x}) <==> Under(items, y, x) by { if Under(items, y, x) { assert x in {x}; } }
      assert UnderAny(items, y, roots + {x}) <==> UnderAny(items, y, roots) || Under(items, y, x) by {
        if Under(items, y, x) { assert x in roots + {x}; }
        if UnderAny(items, y, roots) {
          var r :| r in roots && Under(items, y, r);
          assert r in roots + {x};
        }
      }
    }
  }

  /** The children are right and the folder gets their sum: then the folder is done. */
  lemma RedoneFolder(items: Items, was: map<nat, nat>, mid: map<nat, nat>, children: seq<nat>, x: nat, total: nat)
    requires Forest(items) && x in items && items[x].isDir && ChildrenOf(items, children, x)
    requires Redone(items, was, mid, Members(children)) && total == Sum(FilesBelowAll(items, mid, children))
    ensures Redone(items, was, mid[x := total], {x})
    ensures total == TotalBelow(items, mid[x := total], x)
  {
    var now := mid[x := total];
    AllChildren(items, mid, children, x);
    SameTotals(items, mid, now, x);
    var roots := Members(children);
    forall y | y in items ensures if UnderAny(items, y, {x}) then SizeRight(items, now, y) else now[y] == was[y] {
      SameTotals(items, mid, now, y);
      assert UnderAny(items, y, {x}) <==> Under(items, y, x) by { if Under(items, y, x) { assert x in {x}; } }
      if Under(items, y, x) {
        if y != x {
          var c := UnderViaChild(items, y, x);
          assert c in roots;
          assert UnderAny(items, y, roots);
        }
      } else if UnderAny(items, y, roots) {
        var c :| c in roots && Under(items, y, c);
        UnderChild(items, y, c, x);
      }
    }
  }

  lemma RedoneFile(items: Items, sizes: map<nat, nat>, x: nat)
    requires Forest(items) && sizes.Keys == items.Keys && x in items && !items[x].isDir
    ensures Redone(items, sizes, sizes[x := sizes[x]], {x})
    ensures sizes[x] == TotalBelow(items, sizes[x := sizes[x]], x)
  {
    assert sizes[x := sizes[x]] == sizes;
    FileTotal(items, sizes, x);
    forall y | y in items && UnderAny(items, y, {x}) ensures y == x {
      if y != x { UnderGrade(items, y, x); }
    }
  }

  lemma EarlierSiblings(items: Items, children: seq<nat>, i: nat, d: nat)
    requires Forest(items) && ChildrenOf(items, children, d) && i < |children|
    ensures forall y :: y in items && UnderAny(items, y, Members(children[..i])) ==> !Under(items, y, children[i])
    ensures Members(children[..i]) + {children[i]} == Members(children[..i + 1])
  {
    assert children[..i + 1] == children[..i] + [children[i]];
    forall y, c | y in items && c in children[..i] && Under(items, y, c) ensures !Under(items, y, children[i]) {
      var k :| 0 <= k < i && children[..i][k] == c;
      assert c in children && children[i] in children && c != children[i];
      if Under(items, y, children[i]) { SiblingsDisjoint(items, y, c, children[i], children, d); }
    }
  }

  // ---------- the class ----------

  ghost predicate FoldersKnown(items: Items, dirMap: set<nat>) {
    forall x :: x in dirMap <==> x in items && items[x].isDir
  }

  ghost predicate AllRight(items: Items, sizes: map<nat, nat>)
    requires sizes.Keys == items.Keys
  {
    forall x :: x in items ==> SizeRight(items, sizes, x)
  }

  /** The folder lists speak of the items. */
  ghost predicate Lists(items: Items, dirFiles: map<nat, seq<nat>>) {
    && 0 !in items
    && (forall d :: d in dirFiles ==> ChildrenOf(items, dirFiles[d], d))
    && (forall x :: x in items ==> items[x].parent in dirFiles)
  }

  lemma ForestMore(items: Items, id: nat, item: Item)
    requires Forest(items) && id !in items && id != 0
    ensures Forest(items[id := item]) <==> (item.isDir ==> Hung(items[id := item], id))
  {
    var more := items[id := item];
    forall x | IsFolder(more, x) && x != id ensures Hung(more, x) {
      assert IsFolder(items, x) && Hung(items, x);
    }
    assert item.isDir ==> IsFolder(more, id);
  }

  lemma NewItemHung(items: Items, dirMap: set<nat>, id: nat, item: Item)
    requires Forest(items) && FoldersKnown(items, dirMap) && id !in items && id != 0
    requires item.grade == if item.parent in dirMap then items[item.parent].grade + 1 else 0
    ensures Hung(items[id := item], id) <==> item.parent == 0 || item.parent in dirMap
  {
  }

  lemma ListsMore(items: Items, dirFiles: map<nat, seq<nat>>, id: nat, item: Item, files: seq<nat>)
    requires Lists(items, dirFiles) && id !in items && id != 0 && ChildrenOf(items, files, item.parent)
    ensures Lists(items[id := item], dirFiles[item.parent := files + [id]])
  {
    var more, lists := items[id := item], dirFiles[item.parent := files + [id]];
    forall d | d in lists ensures ChildrenOf(more, lists[d], d) {
      if d != item.parent {
        assert ChildrenOf(items, dirFiles[d], d);
      } else {
        assert id !in files;
        assert forall i :: 0 <= i < |files| ==> files[i] in files;
      }
    }
  }

  lemma FoldersMore(items: Items, dirMap: set<nat>, id: nat, item: Item)
    requires FoldersKnown(items, dirMap) && id !in items
    ensures FoldersKnown(items[id := item], dirMap + if item.isDir then {id} else {})
  {
  }

  // ---------- one new item ----------

  /** A new item changes nothing about what is above the others, but for files that have been
      waiting for their folder.
   */
  lemma {:induction false} UnderSame(items: Items, id: nat, item: Item, y: nat, d: nat)
    requires Forest(items) && id !in items && id != 0 && y in items && (item.isDir ==> items[y].parent != id)
    ensures Under(items[id := item], y, d) == Under(items, y, d)
    decreases if items[y].isDir then 0 else 1, items[y].grade
  {
    if y != d && IsFolder(items, items[y].parent) {
      assert Hung(items, items[y].parent);
      if items[y].isDir ==> items[items[y].parent].grade < items[y].grade {
        UnderSame(items, id, item, items[y].parent, d);
      }
    }
  }

  lemma {:induction false} UnderUnknown(items: Items, y: nat, d: nat)
    requires y in items && d !in items
    ensures !Under(items, y, d)
    decreases if items[y].isDir then 0 else 1, items[y].grade
  {
    if IsFolder(items, items[y].parent) && (items[y].isDir ==> items[items[y].parent].grade < items[y].grade) {
      UnderUnknown(items, items[y].parent, d);
    }
  }

  /** What a new file of a given size adds to the size of x. */
  function Added(items: Items, id: nat, x: nat, size: nat): nat {
    if Under(items, id, x) then size else 0
  }

  lemma NewFileBelow(items: Items, sizes: map<nat, nat>, now: map<nat, nat>, id: nat, item: Item, size: nat, x: nat)
    requires Forest(items) && sizes.Keys == items.Keys && id !in items && id != 0 && x in items && !item.isDir
    requires SameFiles(items[id := item], sizes[id := size], now)
    ensures FilesBelow(items[id := item], now, x)
         == var below := FilesBelow(items, sizes, x); if Under(items[id := item], id, x) then below[id := size] else below
  {
    var more := items[id := item];
    forall y | y in items ensures Under(more, y, x) == Under(items, y, x) { UnderSame(items, id, item, y, x); }
  }

  /** The file's size is due for the folders above it, no others. */
  lemma NewFileTotal(items: Items, sizes: map<nat, nat>, now: map<nat, nat>, id: nat, item: Item, size: nat, x: nat)
    requires Forest(items) && sizes.Keys == items.Keys && id !in items && id != 0 && x in items && !item.isDir
    requires SameFiles(items[id := item], sizes[id := size], now)
    ensures TotalBelow(items[id := item], now, x)
         == TotalBelow(items, sizes, x) + Added(items[id := item], id, x, size)
  {
    NewFileBelow(items, sizes, now, id, item, size, x);
    SumWith(FilesBelow(items, sizes, x), id, size);
  }

  /** The files whose parent id is d. */
  ghost function FilesOf(items: Items, sizes: map<nat, nat>, d: nat): map<nat, nat>
    requires sizes.Keys == items.Keys
  {
    map x | x in items && !items[x].isDir && items[x].parent == d :: sizes[x]
  }

  /** Files that have been waiting for the new folder come to lie below it. */
  lemma NewFolderBelow(items: Items, sizes: map<nat, nat>, id: nat, item: Item, x: nat)
    requires Forest(items) && sizes.Keys == items.Keys && id !in items && id != 0 && item.isDir
    requires x in items[id := item]
    ensures var more, waiting := items[id := item], FilesOf(items, sizes, id);
            FilesBelow(more, sizes[id := 0], x)
            == if x == id then waiting else FilesBelow(items, sizes, x) + if Under(more, id, x) then waiting else map[]
  {
    var more := items[id := item];
    forall y | y in items && !items[y].isDir
      ensures Under(more, y, x) <==> if items[y].parent == id then x == y || Under(more, id, x)
                                     else x != id && Under(items, y, x)
    {
      if items[y].parent != id {
        UnderSame(items, id, item, y, x);
        if x == id { UnderUnknown(items, y, id); }
      }
    }
    forall y | y in items && !items[y].isDir && items[y].parent == id && Under(items, y, x) ensures x == y {
    }
  }

  lemma NewFolderTotal(items: Items, sizes: map<nat, nat>, id: nat, item: Item, x: nat)
    requires Forest(items) && sizes.Keys == items.Keys && id !in items && id != 0 && item.isDir
    requires x in items[id := item]
    ensures var more, waiting := items[id := item], Sum(FilesOf(items, sizes, id));
            TotalBelow(more, sizes[id := 0], x)
            == if x == id then waiting else TotalBelow(items, sizes, x) + if Under(more, id, x) then waiting else 0
  {
    var more, waiting, below := items[id := item], FilesOf(items, sizes, id), FilesBelow(items, sizes, x);
    NewFolderBelow(items, sizes, id, item, x);
    if x != id {
      if Under(more, id, x) {
        forall y | y in waiting ensures y !in below {
          if Under(items, y, x) { assert y == x; UnderGrade(more, id, x); }
        }
        SumDisjoint(below, waiting);
      } else {
        assert below + map[] == below;
      }
    }
  }

  /** The upward walk has reached p: the new size has been added to the folders it has passed. */
  ghost predicate AddedUpTo(items: Items, was: map<nat, nat>, now: map<nat, nat>, id: nat, size: nat, p: nat) {
    && was.Keys == now.Keys == items.Keys
    && id in items && now[id] == was[id]
    && forall x :: x in items && x != id ==>
         now[x] == was[x] + if p in items && Under(items, p, x) then 0 else Added(items, id, x, size)
  }

  lemma WalkStep(items: Items, was: map<nat, nat>, now: map<nat, nat>, id: nat, size: nat, p: nat)
    requires Forest(items) && id in items && IsFolder(items, p) && p != id && Under(items, id, p)
    requires AddedUpTo(items, was, now, id, size, p)
    ensures AddedUpTo(items, was, now[p := now[p] + size], id, size, items[p].parent)
    ensures items[p].parent in items ==> Under(items, id, items[p].parent) && items[p].parent != id
    ensures items[p].parent in items ==> IsFolder(items, items[p].parent) && items[items[p].parent].grade < items[p].grade
  {
    var q := items[p].parent;
    assert Hung(items, p);
    if q in items { UnderChild(items, id, p, q); }
    if q in items && Under(items, q, p) { UnderGrade(items, q, p); }
    forall x | x in items && p != x && Under(items, p, x) ensures Under(items, q, x) {
    }
    forall x | x in items && Under(items, q, x) && q in items ensures Under(items, p, x) {
    }
    UnderGrade(items, id, p);
  }

  // ---------- a new listing ----------

  /** What the server lists of a user's table: every row once, in any order. */
  ghost predicate ListsTable(vet: seq<FileInfo>, rows: MyDB.Table) {
    && Ids(vet) == rows.Keys
    && (forall i, j :: 0 <= i < j < |vet| ==> vet[i].id != vet[j].id)
    && (forall info :: info in vet ==>
          var row := rows[info.id];
          info.isDir == row.IsDir() && info.grade == row.grade && info.parent == row.parent && info.size == row.size)
  }

  /** With its directories in place that is a listing the view is made for. */
  lemma ServerListing(rows: MyDB.Table, vet: seq<FileInfo>)
    requires MyDB.DirsOk(rows) && ListsTable(vet, rows)
    ensures Listing(vet)
  {
    forall info | info in vet ensures info.id != 0 {
      assert info.id in Ids(vet);
    }
    forall info | info in vet && info.isDir ensures Settled(vet, info) {
      assert info.id in Ids(vet) && MyDB.Placed(rows, info.id);
      if info.parent != 0 {
        assert info.parent in Ids(vet);
        var dir :| dir in vet && dir.id == info.parent;
      }
    }
  }

  /** The items are the rows as far as the view keeps them. */
  ghost predicate Mirrors(items: Items, rows: MyDB.Table) {
    && items.Keys == rows.Keys
    && forall x :: x in rows ==>
         items[x].isDir == rows[x].IsDir() && items[x].grade == rows[x].grade && items[x].parent == rows[x].parent
  }

  lemma ShownIsTable(items: Items, vet: seq<FileInfo>, rows: MyDB.Table)
    requires Shows(items, vet) && ListsTable(vet, rows)
    ensures Mirrors(items, rows)
  {
    forall x | x in rows
      ensures items[x].isDir == rows[x].IsDir() && items[x].grade == rows[x].grade && items[x].parent == rows[x].parent
    {
      assert x in Ids(vet);
      var info :| info in vet && info.id == x;
    }
  }

  lemma {:induction false} UnderLeads(items: Items, rows: MyDB.Table, x: nat, d: nat) returns (n: nat)
    requires Mirrors(items, rows) && Under(items, x, d)
    ensures MyDB.Leads(rows, x, d, n) && (n == 0 ==> x == d)
    decreases if IsFolder(items, x) then 0 else 1, if x in items then items[x].grade else 0
  {
    if x == d {
      n := 0;
    } else {
      var m := UnderLeads(items, rows, items[x].parent, d);
      n := m + 1;
    }
  }

  lemma {:induction false} LeadsUnder(items: Items, rows: MyDB.Table, x: nat, d: nat, n: nat)
    requires Mirrors(items, rows) && Forest(items) && IsFolder(items, d) && MyDB.Leads(rows, x, d, n)
    ensures Under(items, x, d)
    decreases n
  {
    if n > 0 {
      assert items[x].isDir ==> Hung(items, x);
      LeadsUnder(items, rows, items[x].parent, d, n - 1);
    }
  }

  /** What the view takes to lie below a folder is what the server would delete with it. */
  lemma UnderIsBelow(items: Items, rows: MyDB.Table, x: nat, d: nat)
    requires Mirrors(items, rows) && Forest(items) && IsFolder(items, d) && x != d
    ensures Under(items, x, d) <==> MyDB.Below(rows, x, d)
  {
    if Under(items, x, d) {
      var n := UnderLeads(items, rows, x, d);
    }
    if MyDB.Below(rows, x, d) {
      var n: nat :| n > 0 && MyDB.Leads(rows, x, d, n);
      LeadsUnder(items, rows, x, d, n);
    }
  }

  /** The sizes of the files in the server's table below a directory, by the server's own
      relation.
   */
  ghost function StoredBelow(rows: MyDB.Table, d: nat): map<nat, nat> {
    map x | x in MyDB.Beneath(rows, d) && x in rows && !rows[x].IsDir() :: rows[x].size
  }

  /** Every folder's size is the sum of the sizes of the files below it in the server's table. */
  ghost predicate SizesOfTable(sizes: map<nat, nat>, rows: MyDB.Table) {
    forall d :: d in rows && rows[d].IsDir() ==> d in sizes && sizes[d] == Sum(StoredBelow(rows, d))
  }

  lemma StoredFileSizes(sizes: map<nat, nat>, vet: seq<FileInfo>, rows: MyDB.Table)
    requires ListsTable(vet, rows) && FileSizesFrom(sizes, vet)
    ensures forall x :: x in rows && !rows[x].IsDir() ==> x in sizes && sizes[x] == rows[x].size
  {
    forall x | x in rows && !rows[x].IsDir() ensures x in sizes && sizes[x] == rows[x].size {
      assert x in Ids(vet);
      var info :| info in vet && info.id == x;
    }
  }

  lemma FolderIsStored(items: Items, sizes: map<nat, nat>, rows: MyDB.Table, d: nat)
    requires Mirrors(items, rows) && Forest(items) && sizes.Keys == items.Keys && IsFolder(items, d)
    requires forall x :: x in rows && !rows[x].IsDir() ==> sizes[x] == rows[x].size
    ensures TotalBelow(items, sizes, d) == Sum(StoredBelow(rows, d))
  {
    forall x | x in rows && !rows[x].IsDir() ensures Under(items, x, d) <==> MyDB.Below(rows, x, d) {
      UnderIsBelow(items, rows, x, d);
    }
    assert FilesBelow(items, sizes, d) == StoredBelow(rows, d);
  }

  lemma RightSizesAreStored(items: Items, sizes: map<nat, nat>, vet: seq<FileInfo>, rows: MyDB.Table)
    requires Shows(items, vet) && ListsTable(vet, rows) && FileSizesFrom(sizes, vet)
    requires Forest(items) && sizes.Keys == items.Keys && AllRight(items, sizes)
    ensures SizesOfTable(sizes, rows)
  {
    ShownIsTable(items, vet, rows);
    StoredFileSizes(sizes, vet, rows);
    forall d | d in rows && rows[d].IsDir() ensures d in sizes && sizes[d] == Sum(StoredBelow(rows, d)) {
      FolderIsStored(items, sizes, rows, d);
      assert SizeRight(items, sizes, d);
    }
  }

  lemma ListingForest(items: Items, vet: seq<FileInfo>)
    requires Listing(vet) && Shows(items, vet)
    ensures Forest(items)
  {
    assert 0 !in Ids(vet);
    forall x | IsFolder(items, x) ensures Hung(items, x) {
      assert x in Ids(vet);
      var info :| info in vet && info.id == x;
      assert Settled(vet, info);
      if info.parent != 0 {
        var dir :| dir in vet && dir.id == info.parent && dir.isDir && info.grade == dir.grade + 1;
        assert dir.id in Ids(vet);
      }
    }
  }

  lemma ShowsMore(items: Items, vet: seq<FileInfo>, i: nat)
    requires Listing(vet) && i < |vet| && Shows(items, vet[..i])
    ensures vet[i].id !in items && vet[i].id != 0 && Shows(items[vet[i].id := ItemOf(vet[i])], vet[..i + 1])
  {
    var more := items[vet[i].id := ItemOf(vet[i])];
    assert vet[..i + 1] == vet[..i] + [vet[i]];
    assert vet[i] in vet;
    forall info | info in vet[..i] ensures info.id != vet[i].id && info.id in items {
      assert info.id in Ids(vet[..i]);
    }
    assert Ids(vet[..i + 1]) == Ids(vet[..i]) + {vet[i].id};
  }

  ghost predicate SizesFrom(sizes: map<nat, nat>, vet: seq<FileInfo>) {
    forall info :: info in vet ==> info.id in sizes && sizes[info.id] == info.size
  }

  ghost predicate FileSizesFrom(sizes: map<nat, nat>, vet: seq<FileInfo>) {
    forall info :: info in vet && !info.isDir ==> info.id in sizes && sizes[info.id] == info.size
  }

  lemma FileSizesKept(items: Items, was: map<nat, nat>, now: map<nat, nat>, vet: seq<FileInfo>)
    requires Shows(items, vet) && SizesFrom(was, vet) && SameFiles(items, was, now)
    ensures FileSizesFrom(now, vet)
  {
    forall info | info in vet && !info.isDir ensures info.id in now && now[info.id] == info.size {
      assert info.id in Ids(vet);
    }
  }

  lemma SizesMore(items: Items, sizes: map<nat, nat>, vet: seq<FileInfo>, i: nat)
    requires Listing(vet) && i < |vet| && SizesFrom(sizes, vet[..i]) && Shows(items, vet[..i])
    ensures SizesFrom(sizes[vet[i].id := vet[i].size], vet[..i + 1])
  {
    assert vet[..i + 1] == vet[..i] + [vet[i]];
    ShowsMore(items, vet, i);
    forall info | info in vet[..i] ensures info.id != vet[i].id {
      assert info.id in Ids(vet[..i]);
    }
  }

  /** Every folder lies under some item of the root's list. */
  lemma {:induction false} UnderRoot(items: Items, children: seq<nat>, x: nat)
    requires Forest(items) && ChildrenOf(items, children, 0) && IsFolder(items, x)
    ensures UnderAny(items, x, Members(children))
    decreases items[x].grade
  {
    assert Hung(items, x);
    if items[x].parent == 0 {
      assert x in Members(children);
    } else {
      UnderRoot(items, children, items[x].parent);
      var c :| c in Members(children) && Under(items, items[x].parent, c);
      assert Under(items, x, c);
    }
  }

  /** The sizes under the root's list have been put right: those of all folders. A file has
      its own size anyway.
   */
  lemma RootDone(items: Items, was: map<nat, nat>, now: map<nat, nat>, children: seq<nat>)
    requires Forest(items) && ChildrenOf(items, children, 0) && Redone(items, was, now, Members(children))
    ensures AllRight(items, now)
  {
    forall x | x in items ensures SizeRight(items, now, x) {
      if items[x].isDir { UnderRoot(items, children, x); } else { FileTotal(items, now, x); }
    }
  }

  /** Where all sizes are right, computing any of them anew finds the same sizes: what the
      upward walks maintain is what the recursion would compute.
   */
  lemma RecomputationAgrees(items: Items, was: map<nat, nat>, now: map<nat, nat>, roots: set<nat>)
    requires was.Keys == items.Keys && AllRight(items, was) && Redone(items, was, now, roots)
    ensures now == was
  {
    forall x | x in items ensures now[x] == was[x] {
      SameTotals(items, was, now, x);
      assert SizeRight(items, was, x);
    }
  }

  /** Every folder above the new file has got its size on top. */
  ghost predicate SizeAdded(items: Items, was: map<nat, nat>, now: map<nat, nat>, id: nat, size: nat) {
    && was.Keys == now.Keys == items.Keys && id in items && now[id] == was[id]
    && forall x :: x in items && x != id ==> now[x] == was[x] + Added(items, id, x, size)
  }

  lemma WalkStart(items: Items, sizes: map<nat, nat>, id: nat, size: nat)
    requires id in items && sizes.Keys == items.Keys
    ensures AddedUpTo(items, sizes, sizes, id, size, items[id].parent)
  {
  }

  /** With its size added to the folders above it, if it has any, the new file is in order. */
  lemma FileDone(items: Items, sizes: map<nat, nat>, now: map<nat, nat>, id: nat, item: Item, size: nat)
    requires Forest(items) && sizes.Keys == items.Keys && id !in items && id != 0 && !item.isDir
    requires AllRight(items, sizes)
    requires if IsFolder(items, item.parent) then SizeAdded(items[id := item], sizes[id := size], now, id, size)
             else now == sizes[id := size]
    ensures now.Keys == (items[id := item]).Keys
    ensures Forest(items[id := item]) && AllRight(items[id := item], now)
  {
    var more, mid := items[id := item], sizes[id := size];
    ForestMore(items, id, item);
    forall x | x in more && x != id && Under(more, id, x) ensures IsFolder(items, item.parent) && more[x].isDir {
      UnderGrade(more, id, x);
    }
    assert SameFiles(more, mid, now);
    forall x | x in more ensures SizeRight(more, now, x) {
      if x == id {
        FileTotal(more, now, id);
      } else {
        NewFileTotal(items, sizes, now, id, item, size, x);
        assert SizeRight(items, sizes, x);
      }
    }
  }

  /** A new folder is in order exactly if its place is known and the files that have been
      waiting for it are empty.
   */
  lemma FolderDoneIff(items: Items, sizes: map<nat, nat>, id: nat, item: Item, known: bool)
    requires Forest(items) && sizes.Keys == items.Keys && id !in items && id != 0 && item.isDir
    requires AllRight(items, sizes) && (Hung(items[id := item], id) <==> known)
    ensures Forest(items[id := item]) && AllRight(items[id := item], sizes[id := 0])
       <==> known && Sum(FilesOf(items, sizes, id)) == 0
  {
    var more, now := items[id := item], sizes[id := 0];
    ForestMore(items, id, item);
    if known {
      NewFolderTotal(items, sizes, id, item, id);
      assert AllRight(more, now) ==> SizeRight(more, now, id);
      if Sum(FilesOf(items, sizes, id)) == 0 {
        forall x | x in more ensures SizeRight(more, now, x) {
          NewFolderTotal(items, sizes, id, item, x);
          assert x == id || SizeRight(items, sizes, x);
        }
      }
    }
  }

  // ---------- types cut from names ----------

  /** The client's type of a file: what follows the last dot of its name, or all of it. */
  function ClientType(name: string): string {
    var rest := FileServer.AfterLastDot(name, |name|);
    if rest.None? then name else rest.value
  }

  /** Of the files a server stores, exactly one name makes the client take it for a folder. */
  lemma TakenForFolderIff(name: string)
    ensures ClientType(name) == "d" && FileServer.GetSuffix(name) != "d" <==> name == "d"
  {
    var d := "d";
    assert d[0] == 'd' && FileServer.AfterLastDot(d, 1) == FileServer.AfterLastDot(d, 0);
  }

  /** A file taken for a folder: what is stored for x, and what x should have. */
  lemma NamedFolderSize(items: Items, sizes: map<nat, nat>, now: map<nat, nat>, id: nat, item: Item, size: nat, x: nat)
    requires Forest(items) && sizes.Keys == items.Keys && id !in items && id != 0 && item.isDir
    requires AllRight(items, sizes) && now.Keys == (items[id := item]).Keys && x in items[id := item]
    requires if IsFolder(items, item.parent) then SizeAdded(items[id := item], sizes[id := size], now, id, size)
             else now == sizes[id := size]
    ensures now[x] == (if x == id then size else sizes[x] + Added(items[id := item], id, x, size))
    ensures TotalBelow(items[id := item], sizes[id := 0], x)
         == var waiting := Sum(FilesOf(items, sizes, id)); if x == id then waiting else sizes[x] + Added(items[id := item], id, x, waiting)
  {
    NewFolderTotal(items, sizes, id, item, x);
    if x != id {
      assert SizeRight(items, sizes, x);
      if Under(items[id := item], id, x) { UnderGrade(items[id := item], id, x); }
    }
  }

  lemma FilesUntouched(items: Items, sizes: map<nat, nat>, now: map<nat, nat>, id: nat, item: Item, size: nat)
    requires sizes.Keys == items.Keys && id !in items && item.isDir && now.Keys == (items[id := item]).Keys
    requires now == sizes[id := size] || SizeAdded(items[id := item], sizes[id := size], now, id, size)
    ensures SameFiles(items[id := item], sizes[id := 0], now)
  {
    var more := items[id := item];
    forall x | x in more && !more[x].isDir ensures now[x] == sizes[x] {
      if Under(more, id, x) { UnderGrade(more, id, x); }
    }
  }

  /** Its stored size is its own, its total that of the files that hang from its id. */
  lemma NamedFolderIff(items: Items, sizes: map<nat, nat>, now: map<nat, nat>, id: nat, item: Item, size: nat)
    requires Forest(items) && sizes.Keys == items.Keys && id !in items && id != 0 && item.isDir
    requires AllRight(items, sizes) && now.Keys == (items[id := item]).Keys
    requires if IsFolder(items, item.parent) then SizeAdded(items[id := item], sizes[id := size], now, id, size)
             else now == sizes[id := size]
    ensures AllRight(items[id := item], now) <==> size == Sum(FilesOf(items, sizes, id))
  {
    var more, waiting := items[id := item], Sum(FilesOf(items, sizes, id));
    FilesUntouched(items, sizes, now, id, item, size);
    NamedFolderSize(items, sizes, now, id, item, size, id);
    SameTotals(more, sizes[id := 0], now, id);
    assert AllRight(more, now) ==> SizeRight(more, now, id);
    if size == waiting {
      forall x | x in more ensures SizeRight(more, now, x) {
        NamedFolderSize(items, sizes, now, id, item, size, x);
        SameTotals(more, sizes[id := 0], now, x);
      }
    }
  }

  /** A file named "d" as the only one: its folder's size is its own, where recomputing gives 0. */
  lemma NamedFolderExample(size: nat)
    requires size > 0
    ensures FileServer.GetSuffix("d") != "d"
    ensures var items, sizes := map[1 := Item(ClientType("d") == "d", 0, 0)], map[1 := size];
            !AllRight(items, sizes) && TotalBelow(items, sizes, 1) == 0
  {
    TakenForFolderIff("d");
    var items, sizes := map[1 := Item(true, 0, 0)], map[1 := size];
    var none: Items := map[];
    var nothing: map<nat, nat> := map[];
    assert FilesOf(none, nothing, 1) == map[] && none[1 := Item(true, 0, 0)] == items && nothing[1 := size] == sizes;
    NamedFolderIff(none, nothing, sizes, 1, Item(true, 0, 0), size);
    assert FilesBelow(items, sizes, 1) == map[];
  }

  /** What the client asks to be deleted for an item it shows: it names a folder or a file. */
  function DeleteRequest(shown: string, id: nat): FileServer.Event {
    var name := if shown == "d" then "dir.d" else "file.other";
    if FileServer.GetSuffix(name) == "d" then FileServer.DeleteDir(id) else FileServer.DeleteFile(id)
  }

  /** It is a directory that is to be deleted exactly if the item's name is "d" or ends in ".d". */
  lemma DeleteRequestIs(name: string, id: nat)
    ensures DeleteRequest(ClientType(name), id)
         == if name == "d" || FileServer.EndsInD(name) then FileServer.DeleteDir(id) else FileServer.DeleteFile(id)
  {
    TakenForFolderIff(name);
    FileServer.SuffixIsDir(name);
    FileServer.SuffixIsDir("dir.d");
    FileServer.SuffixIsDir("file.other");
    if FileServer.EndsInD(name) {
      assert name == name[..|name| - 2] + "." + "d";
      FileServer.AfterLastDotIs(name[..|name| - 2], "d", 1);
    }
  }

  /** For a file named "d" it asks for a directory to be deleted. The used capacity and the
      ownership of its content then stay right only in the cases named.
   */
  lemma NamedFolderDeletion(w: FileServer.World, id: nat)
    requires id in w.store.rows && !w.store.rows[id].IsDir() && w.store.rows[id].name == "d"
    requires 0 !in w.store.rows && MyDB.UsedOk(w.store) && FileServer.Owned(w) && MyDB.BlobsPresent(w.store)
    ensures var e := DeleteRequest(ClientType(w.store.rows[id].name), id);
            var below := MyDB.Beneath(w.store.rows, id);
            && e == FileServer.DeleteDir(id)
            && (MyDB.UsedOk(FileServer.Step(w, e).store) <==> w.store.rows[id].size == 0 || id in below)
            && (FileServer.Owned(FileServer.Step(w, e))
                <==> MyDB.HasRow(w.store.rows - below - {id}, w.store.rows[id].md5) || id in below)
  {
    TakenForFolderIff("d");
    DirNameIsFolder();
    FileServer.DeleteDirOfFileUsed(w, id);
    FileServer.DeleteDirOfFileOwned(w, id);
    assert w.store.rows - MyDB.Beneath(w.store.rows, id) - {id} == w.store.rows - MyDB.Subtree(w.store.rows, id);
  }

  lemma DirNameIsFolder()
    ensures FileServer.GetSuffix("dir.d") == "d"
  {
    var name := "dir.d";
    assert name[4..] == "d" && name[4] == 'd' && name[3] == '.';
    assert FileServer.AfterLastDot(name, 5) == FileServer.AfterLastDot(name, 4);
  }

  class FileSystem {
    var items: Items
    var sizes: map<nat, nat>
    var dirMap: set<nat>
    var dirFiles: map<nat, seq<nat>>

    ghost predicate Listed()
      reads this
    {
      sizes.Keys == items.Keys && FoldersKnown(items, dirMap) && Lists(items, dirFiles)
    }

    ghost predicate Shaped()
      reads this
    {
      Forest(items) && Listed()
    }

    /** And every size is the sum of the files below the item. */
    ghost predicate Valid()
      reads this
    {
      Shaped() && AllRight(items, sizes)
    }

    constructor ()
      ensures Valid() && items == map[]
    {
      items, sizes, dirMap, dirFiles := map[], map[], {}, map[];
    }

    /** The list of a folder; empty if it has none. */
    function FilesIn(d: nat): (files: seq<nat>)
      reads this
      ensures Listed() ==> ChildrenOf(items, files, d)
    {
      if d in dirFiles then dirFiles[d] else []
    }

    /** Puts a new item into its folder's list and, if asked, into the folder map. */
    method AddItem(id: nat, item: Item, size: nat, asFolder: bool)
      requires Listed() && id !in items && id != 0
      modifies this
      ensures items == old(items)[id := item] && sizes == old(sizes)[id := size]
      ensures dirMap == old(dirMap) + (if asFolder then {id} else {}) && Lists(items, dirFiles)
      ensures asFolder == item.isDir ==> Listed()
    {
      var files := FilesIn(item.parent);
      ListsMore(items, dirFiles, id, item, files);
      FoldersMore(items, dirMap, id, item);
      dirFiles := dirFiles[item.parent := files + [id]];
      dirMap := dirMap + if asFolder then {id} else {};
      items := items[id := item];
      sizes := sizes[id := size];
    }

    /** The first loop of InitView: the items are put into their lists one by one. */
    method LoadItems(vet: seq<FileInfo>) returns (ghost top: nat)
      requires Listing(vet)
      modifies this
      ensures Listed() && Shows(items, vet) && SizesFrom(sizes, vet)
      ensures forall x :: x in items ==> items[x].grade <= top
    {
      items, sizes, dirMap, dirFiles := map[], map[], {}, map[];
      top := 0;
      var i := 0;
      while i < |vet|
        invariant 0 <= i <= |vet| && Listed() && Shows(items, vet[..i]) && SizesFrom(sizes, vet[..i])
        invariant forall x :: x in items ==> items[x].grade <= top
      {
        ShowsMore(items, vet, i);
        SizesMore(items, sizes, vet, i);
        AddItem(vet[i].id, ItemOf(vet[i]), vet[i].size, vet[i].isDir);
        top := if vet[i].grade > top then vet[i].grade else top;
        i := i + 1;
      }
      assert vet[..|vet|] == vet;
    }

    /** Shows a new listing, then computes the sizes of all folders from the root's list
        downwards. The order of the listing does not matter: a folder may follow its items.
     */
    method InitView(vet: seq<FileInfo>)
      requires Listing(vet)
      modifies this
      ensures Valid() && Shows(items, vet) && FileSizesFrom(sizes, vet)
      ensures forall rows :: ListsTable(vet, rows) ==> SizesOfTable(sizes, rows)
    {
      ghost var top := LoadItems(vet);
      ListingForest(items, vet);
      ghost var was := sizes;
      var children := FilesIn(0);
      var total := SumChildren(0, children, top);
      RootDone(items, was, sizes, children);
      FileSizesKept(items, was, sizes, vet);
      forall rows | ListsTable(vet, rows) ensures SizesOfTable(sizes, rows) {
        RightSizesAreStored(items, sizes, vet, rows);
      }
    }

    /** Below the folder it is put in, or with grade 0 if there is no such folder. */
    function NewItem(isDir: bool, parent: nat): Item
      requires Listed()
      reads this
    {
      Item(isDir, if parent in dirMap then items[parent].grade + 1 else 0, parent)
    }

    /** The upward loop of AddNewFileItem: adds the size to every folder above a new item. */
    method AddUpwards(id: nat, size: nat)
      requires Forest(items) && sizes.Keys == items.Keys && id in items && id !in dirMap
      requires forall x :: x in dirMap <==> IsFolder(items, x) && x != id
      requires items[id].parent in dirMap && Under(items, id, items[id].parent)
      modifies this`sizes
      ensures SizeAdded(items, old(sizes), sizes, id, size)
    {
      ghost var was := sizes;
      var p := items[id].parent;
      WalkStart(items, sizes, id, size);
      while p in dirMap
        invariant p in items ==> p in dirMap && Under(items, id, p) && p != id
        invariant AddedUpTo(items, was, sizes, id, size, p)
        decreases if p in items then items[p].grade + 1 else 0
      {
        WalkStep(items, was, sizes, id, size, p);
        sizes := sizes[p := sizes[p] + size];
        p := items[p].parent;
      }
    }

    /** The item is listed, though never in the folder map, and its size goes upwards. */
    method PlaceFile(id: nat, item: Item, size: nat)
      requires Shaped() && id !in items && id != 0
      requires item.grade == if item.parent in dirMap then items[item.parent].grade + 1 else 0
      modifies this
      ensures items == old(items)[id := item] && dirMap == old(dirMap) && Lists(items, dirFiles)
      ensures sizes.Keys == items.Keys && (!item.isDir ==> Listed())
      ensures item.parent in dirMap ==> SizeAdded(items, old(sizes)[id := size], sizes, id, size)
      ensures item.parent !in dirMap ==> sizes == old(sizes)[id := size]
    {
      NewItemHung(items, dirMap, id, item);
      ForestMore(items, id, item);
      AddItem(id, item, size, false);
      if item.parent in dirMap {
        AddUpwards(id, size);
      }
    }

    /** Adds an uploaded file under its name and walks upwards to add its size to every folder
        above it. In an unknown folder the file is listed and no size changes. The type is cut
        from the name: the index is right afterwards exactly if that does not make the file a
        folder, or its size happens to be that of the files which hang from its id.
     */
    method AddNewFileItem(id: nat, name: string, parent: nat, size: nat)
      requires Valid() && id !in items && id != 0
      modifies this
      ensures IsNewItem(old(items), items, id, ClientType(name) == "d", parent) && sizes.Keys == items.Keys
      ensures parent in old(dirMap) ==> SizeAdded(items, old(sizes)[id := size], sizes, id, size)
      ensures parent !in old(dirMap) ==> sizes == old(sizes)[id := size]
      ensures ClientType(name) != "d" ==> Valid()
      ensures AllRight(items, sizes) <==> ClientType(name) != "d" || size == old(Sum(FilesOf(items, sizes, id)))
    {
      ghost var wasItems, was := items, sizes;
      var item := NewItem(ClientType(name) == "d", parent);
      NewItemIs(items, id, item);
      PlaceFile(id, item, size);
      if item.isDir {
        NamedFolderIff(wasItems, was, sizes, id, item, size);
      } else {
        FileDone(wasItems, was, sizes, id, item, size);
      }
    }

    /** Adds a new, empty folder. The index is right afterwards exactly if the folder's place
        is known and no file of any size has been waiting for a folder with this id.
     */
    method AddNewDirItem(id: nat, parent: nat)
      requires Valid() && id !in items && id != 0
      modifies this
      ensures Listed() && IsNewItem(old(items), items, id, true, parent)
      ensures sizes == old(sizes)[id := 0]
      ensures Valid() <==> (parent == 0 || parent in old(dirMap)) && Sum(FilesOf(old(items), old(sizes), id)) == 0
    {
      var item := NewItem(true, parent);
      NewItemIs(items, id, item);
      NewItemHung(items, dirMap, id, item);
      FolderDoneIff(items, sizes, id, item, parent == 0 || parent in dirMap);
      AddItem(id, item, 0, true);
    }

    /** Recomputes the sizes of an item and of everything below it. */
    method InitDirByteSize(x: nat, ghost top: nat) returns (total: nat)
      requires Shaped() && x in items && forall y :: IsFolder(items, y) ==> items[y].grade <= top
      modifies this`sizes
      ensures Shaped() && Redone(items, old(sizes), sizes, {x})
      ensures total == sizes[x] == TotalBelow(items, sizes, x)
      decreases if items[x].isDir then top + 1 - items[x].grade else 0, 2
    {
      ghost var was := sizes;
      if items[x].isDir {
        var children := FilesIn(x);
        total := SumChildren(x, children, top);
        RedoneFolder(items, was, sizes, children, x, total);
      } else {
        total := sizes[x];
        RedoneFile(items, sizes, x);
      }
      sizes := sizes[x := total];
    }

    /** The loop of InitDirByteSize over the items of folder d. */
    method SumChildren(d: nat, children: seq<nat>, ghost top: nat) returns (total: nat)
      requires Shaped() && ChildrenOf(items, children, d)
      requires d == 0 || (d in items && items[d].isDir)
      requires forall y :: IsFolder(items, y) ==> items[y].grade <= top
      modifies this`sizes
      ensures Shaped() && Redone(items, old(sizes), sizes, Members(children))
      ensures total == Sum(FilesBelowAll(items, sizes, children))
      decreases if d == 0 then top + 2 else top + 1 - items[d].grade, 1
    {
      ghost var was := sizes;
      total := 0;
      var i := 0;
      NoChildrenYet(items, sizes, children);
      while i < |children|
        invariant 0 <= i <= |children| && SummedUp(items, was, sizes, children[..i], total)
      {
        total := AddChild(d, children, i, total, was, top);
        i := i + 1;
      }
      AllSummed(items, was, sizes, children, total);
    }

    /** One round of the loop; was: the sizes before the first. */
    method AddChild(d: nat, children: seq<nat>, i: nat, total: nat, ghost was: map<nat, nat>, ghost top: nat)
      returns (more: nat)
      requires Shaped() && ChildrenOf(items, children, d) && i < |children|
      requires d == 0 || (d in items && items[d].isDir)
      requires forall y :: IsFolder(items, y) ==> items[y].grade <= top
      modifies this`sizes
      ensures sizes.Keys == items.Keys
      ensures old(SummedUp(items, was, sizes, children[..i], total)) ==> SummedUp(items, was, sizes, children[..i + 1], more)
      decreases if d == 0 then top + 2 else top + 1 - items[d].grade, 0
    {
      ghost var mid := sizes;
      ChildInItems(items, children, i, d);
      var child := InitDirByteSize(children[i], top);
      more := total + child;
      if SummedUp(items, was, mid, children[..i], total) {
        SummedMore(items, was, mid, sizes, children, i, d, total);
      }
    }
  }

  /** The sizes are redone below these items, and added up. */
  ghost predicate SummedUp(items: Items, was: map<nat, nat>, now: map<nat, nat>, roots: seq<nat>, total: nat) {
    was.Keys == now.Keys == items.Keys && Redone(items, was, now, Members(roots)) && total == Sum(FilesBelowAll(items, was, roots))
  }

  lemma SummedMore(items: Items, was: map<nat, nat>, mid: map<nat, nat>, now: map<nat, nat>, children: seq<nat>, i: nat,
                   d: nat, total: nat)
    requires Forest(items) && ChildrenOf(items, children, d) && i < |children|
    requires SummedUp(items, was, mid, children[..i], total) && Redone(items, mid, now, {children[i]}) && now.Keys == items.Keys
    ensures children[i] in items && SummedUp(items, was, now, children[..i + 1], total + TotalBelow(items, now, children[i]))
  {
    SumStep(items, was, mid, now, children, i, d);
    assert children[i] in children;
  }

  lemma AllSummed(items: Items, was: map<nat, nat>, now: map<nat, nat>, children: seq<nat>, total: nat)
    requires SummedUp(items, was, now, children[..|children|], total)
    ensures Redone(items, was, now, Members(children)) && total == Sum(FilesBelowAll(items, now, children))
  {
    assert children[..|children|] == children;
    SameSum(items, was, now, children);
  }

  lemma SameSum(items: Items, was: map<nat, nat>, now: map<nat, nat>, roots: seq<nat>)
    requires was.Keys == now.Keys == items.Keys && Redone(items, was, now, Members(roots))
    ensures FilesBelowAll(items, was, roots) == FilesBelowAll(items, now, roots)
  {
  }

  lemma ChildInItems(items: Items, children: seq<nat>, i: nat, d: nat)
    requires Forest(items) && ChildrenOf(items, children, d) && i < |children|
    ensures children[i] in items && items[children[i]].parent == d
    ensures d != 0 && items[children[i]].isDir ==> d in items && items[d].grade < items[children[i]].grade
  {
    assert children[i] in children;
    if items[children[i]].isDir { assert Hung(items, children[i]); }
  }

  /** One round of SumChildren. */
  lemma SumStep(items: Items, was: map<nat, nat>, mid: map<nat, nat>, now: map<nat, nat>, children: seq<nat>, i: nat, d: nat)
    requires Forest(items) && ChildrenOf(items, children, d) && i < |children|
    requires Redone(items, was, mid, Members(children[..i])) && Redone(items, mid, now, {children[i]})
    ensures Redone(items, was, now, Members(children[..i + 1]))
    ensures Sum(FilesBelowAll(items, was, children[..i + 1]))
         == Sum(FilesBelowAll(items, was, children[..i])) + TotalBelow(items, now, children[i])
  {
    OneChildMore(items, was, children, i, d);
    EarlierSiblings(items, children, i, d);
    RedoneMore(items, was, mid, now, Members(children[..i]), children[i]);
    SameTotals(items, was, now, children[i]);
  }

  lemma NoChildrenYet(items: Items, sizes: map<nat, nat>, children: seq<nat>)
    requires sizes.Keys == items.Keys
    ensures Redone(items, sizes, sizes, Members(children[..0]))
    ensures Sum(FilesBelowAll(items, sizes, children[..0])) == 0
  {
    assert Members(children[..0]) == {};
    assert FilesBelowAll(items, sizes, children[..0]) == map[];
  }
}
