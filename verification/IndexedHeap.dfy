/** The array heap with an id-to-slot index that the load balancer's ServerHeap and the
    server's Timer both implement, sift for sift. Equal keys are exchanged.
 */
module IndexedHeap {

  /** A node: its id (socket or timer id), the key it is ordered by, and what it carries. */
  datatype Entry<T> = Entry(id: int, key: int, info: T)

  function Parent(c: nat): nat
    requires c > 0
  {
    (c - 1) / 2
  }

  /** The node in slot c is not smaller than its parent. */
  ghost predicate Above<T>(heap: seq<Entry<T>>, c: nat)
    requires 0 < c < |heap|
  {
    heap[Parent(c)].key <= heap[c].key
  }

  /** Min-heap order among the first n slots. */
  ghost predicate Ordered<T>(heap: seq<Entry<T>>, n: nat)
    requires n <= |heap|
  {
    forall c :: 0 < c < n ==> Above(heap, c)
  }

  /** Order among the first n slots but for slot i, whose children stand right under its
      parent.
   */
  ghost predicate OrderedBut<T>(heap: seq<Entry<T>>, n: nat, i: nat)
    requires n <= |heap|
  {
    && (forall c :: 0 < c < n && c != i && Parent(c) != i ==> Above(heap, c))
    && (forall c :: 0 < c < n && i > 0 && Parent(c) == i ==> heap[Parent(i)].key <= heap[c].key)
  }

  /** Each id is in the index with its slot, and nothing else is: slots and ids correspond
      one to one.
   */
  ghost predicate Indexed<T>(heap: seq<Entry<T>>, index: map<int, nat>) {
    && (forall i :: 0 <= i < |heap| ==> heap[i].id in index && index[heap[i].id] == i)
    && (forall id :: id in index ==> index[id] < |heap| && heap[index[id]].id == id)
  }

  /** The nodes by id, without their places. */
  ghost function NodesOf<T>(heap: seq<Entry<T>>, index: map<int, nat>): map<int, Entry<T>>
    requires Indexed(heap, index)
  {
    map id | id in index :: heap[index[id]]
  }

  lemma {:induction false} RootIsLeast<T>(heap: seq<Entry<T>>, k: nat)
    requires Ordered(heap, |heap|) && k < |heap|
    ensures heap[0].key <= heap[k].key
  {
    if k > 0 {
      assert Above(heap, k);
      RootIsLeast(heap, Parent(k));
    }
  }

  /** Giving one slot another key leaves the order intact around it. */
  lemma Rekeyed<T>(heap: seq<Entry<T>>, i: nat, e: Entry<T>)
    requires i < |heap| && Ordered(heap, |heap|)
    ensures OrderedBut(heap[i := e], |heap|, i)
  {
    var now := heap[i := e];
    forall c | 0 < c < |heap| && c != i && Parent(c) != i ensures Above(now, c) {
      assert Above(heap, c);
    }
    forall c | 0 < c < |heap| && i > 0 && Parent(c) == i ensures now[Parent(i)].key <= now[c].key {
      assert Above(heap, c) && Above(heap, i);
    }
  }

  lemma SwapKeepsNodes<T>(was: seq<Entry<T>>, at: map<int, nat>, i: nat, j: nat,
                          heap: seq<Entry<T>>, index: map<int, nat>)
    requires Indexed(was, at) && i < |was| && j < |was|
    requires heap == was[i := was[j]][j := was[i]]
    requires index == at[was[j].id := i][was[i].id := j]
    ensures Indexed(heap, index) && NodesOf(heap, index) == NodesOf(was, at)
  {
    assert index.Keys == at.Keys;
    forall id | id in index ensures index[id] < |heap| && heap[index[id]].id == id && heap[index[id]] == was[at[id]] {
    }
  }

  lemma PushNodes<T>(heap: seq<Entry<T>>, index: map<int, nat>, e: Entry<T>)
    requires Indexed(heap, index) && e.id !in index
    ensures Indexed(heap + [e], index[e.id := |heap|])
    ensures NodesOf(heap + [e], index[e.id := |heap|]) == NodesOf(heap, index)[e.id := e]
  {
    var more, at := heap + [e], index[e.id := |heap|];
    assert forall id :: id in index ==> more[at[id]] == heap[index[id]];
  }

  lemma ReplaceNodes<T>(heap: seq<Entry<T>>, index: map<int, nat>, i: nat, e: Entry<T>)
    requires Indexed(heap, index) && i < |heap| && heap[i].id == e.id
    ensures Indexed(heap[i := e], index)
    ensures NodesOf(heap[i := e], index) == NodesOf(heap, index)[e.id := e]
  {
    var now := heap[i := e];
    assert forall id :: id in index && id != e.id ==> now[index[id]] == heap[index[id]];
  }

  lemma PopNodes<T>(heap: seq<Entry<T>>, index: map<int, nat>)
    requires Indexed(heap, index) && |heap| > 0
    ensures var last := |heap| - 1;
            && Indexed(heap[..last], index - {heap[last].id})
            && NodesOf(heap[..last], index - {heap[last].id}) == NodesOf(heap, index) - {heap[last].id}
  {
    var last := |heap| - 1;
    var less, at := heap[..last], index - {heap[last].id};
    assert forall id :: id in at ==> id in index && at[id] == index[id] && index[id] != last;
    assert forall id :: id in at ==> less[at[id]] == heap[index[id]];
  }

  class Heap<T> {
    var heap: seq<Entry<T>>
    var index: map<int, nat>

    constructor ()
      ensures heap == [] && index == map[]
    {
      heap, index := [], map[];
    }

    ghost predicate Valid()
      reads this
    {
      Indexed(heap, index) && Ordered(heap, |heap|)
    }

    ghost function Nodes(): map<int, Entry<T>>
      requires Indexed(heap, index)
      reads this
    {
      NodesOf(heap, index)
    }

    /** Exchanges two slots and updates the index. */
    method SwapNode(i: nat, j: nat)
      requires Indexed(heap, index) && i < |heap| && j < |heap|
      modifies this
      ensures Indexed(heap, index) && Nodes() == old(Nodes())
      ensures heap == old(heap)[i := old(heap)[j]][j := old(heap)[i]]
    {
      heap := heap[i := heap[j]][j := heap[i]];
      index := index[heap[i].id := i];
      index := index[heap[j].id := j];
      SwapKeepsNodes(old(heap), old(index), i, j, heap, index);
    }

    /** Moves the node in slot i up until its parent is smaller. Also right when only the
        first n slots are in order; slots above i are not touched.
     */
    method SiftUp(start: nat, ghost n: nat)
      requires Indexed(heap, index) && start < n <= |heap|
      requires forall c :: 0 < c < n && c != start ==> Above(heap, c)
      requires OrderedBut(heap, n, start)
      modifies this
      ensures Indexed(heap, index) && Nodes() == old(Nodes()) && |heap| == old(|heap|)
      ensures Ordered(heap, n)
      ensures forall k :: start < k < |heap| ==> heap[k] == old(heap)[k]
      ensures heap[start] == if start > 0 && old(heap)[Parent(start)].key >= old(heap)[start].key
                             then old(heap)[Parent(start)] else old(heap)[start]
    {
      var i := start;
      while i > 0
        invariant 0 <= i <= start && |heap| == old(|heap|)
        invariant Indexed(heap, index) && Nodes() == old(Nodes())
        invariant forall c :: 0 < c < n && c != i ==> Above(heap, c)
        invariant OrderedBut(heap, n, i)
        invariant forall k :: start < k < |heap| ==> heap[k] == old(heap)[k]
        invariant i == start ==> heap == old(heap)
        invariant i != start ==> heap[start] == old(heap)[Parent(start)]
                                 && old(heap)[Parent(start)].key >= old(heap)[start].key
      {
        var j := Parent(i);
        if heap[j].key < heap[i].key {
          break;
        }
        SiftUpStep(heap, n, i);
        SwapNode(i, j);
        i := j;
      }
    }

    /** Moves the node in slot pre down among the first n slots until both children are
        larger. If it moved, the order is complete; if not, nothing changed and only the edge
        to its parent is open.
     */
    method SiftDown(pre: nat, n: nat) returns (moved: bool)
      requires Indexed(heap, index) && pre <= n <= |heap| && pre < |heap|
      requires OrderedBut(heap, n, pre)
      modifies this
      ensures Indexed(heap, index) && Nodes() == old(Nodes()) && |heap| == old(|heap|)
      ensures forall c :: 0 < c < n && c != pre ==> Above(heap, c)
      ensures moved ==> Ordered(heap, n)
      ensures !moved ==> heap == old(heap) && index == old(index)
      ensures moved ==> 2 * pre + 1 < n
      ensures moved && pre > 0 ==> old(heap)[Parent(pre)].key <= old(heap)[pre].key
      ensures forall k :: n <= k < |heap| ==> heap[k] == old(heap)[k]
    {
      var i := pre;
      var j := i * 2 + 1;
      ghost var was := heap;
      while j < n
        invariant j == i * 2 + 1
        invariant Indexed(heap, index) && Nodes() == old(Nodes())
        invariant Sinking(was, heap, n, pre, i)
        invariant i == pre ==> index == old(index)
        decreases n - i
      {
        j := LesserChild(heap, n, j);
        if heap[i].key < heap[j].key {
          break;
        }
        SinkingStep(was, heap, n, pre, i, j);
        SwapNode(i, j);
        i := j;
        j := i * 2 + 1;
      }
      SinkingEnd(was, heap, n, pre, i);
      moved := i > pre;
    }

    /** Down if possible, else up: brings the node in slot i to its place. */
    method Settle(i: nat, n: nat)
      requires Indexed(heap, index) && i < n <= |heap|
      requires OrderedBut(heap, n, i)
      modifies this
      ensures Indexed(heap, index) && Nodes() == old(Nodes()) && |heap| == old(|heap|)
      ensures Ordered(heap, n)
      ensures forall k :: n <= k < |heap| ==> heap[k] == old(heap)[k]
    {
      var moved := SiftDown(i, n);
      if !moved {
        SiftUp(i, n);
      }
    }

    /** Adds a node with a new id in a new last slot. */
    method PushBack(e: Entry<T>)
      requires Valid() && e.id !in index
      modifies this
      ensures Indexed(heap, index) && Nodes() == old(Nodes())[e.id := e]
      ensures |heap| == old(|heap|) + 1 && OrderedBut(heap, |heap|, |heap| - 1)
      ensures forall c :: 0 < c < |heap| - 1 ==> Above(heap, c)
    {
      ghost var was := heap;
      PushNodes(heap, index, e);
      index := index[e.id := |heap|];
      heap := heap + [e];
      forall c | 0 < c < |was| ensures Above(heap, c) {
        assert Above(was, c);
      }
    }

    /** Puts other contents under the same id into slot i. */
    method Replace(i: nat, e: Entry<T>)
      requires Valid() && i < |heap| && heap[i].id == e.id
      modifies this`heap
      ensures Indexed(heap, index) && Nodes() == old(Nodes())[e.id := e]
      ensures heap == old(heap)[i := e] && OrderedBut(heap, |heap|, i)
    {
      Rekeyed(heap, i, e);
      ReplaceNodes(heap, index, i, e);
      heap := heap[i := e];
    }

    /** Drops the node in the last slot. */
    method PopBack()
      requires Indexed(heap, index) && |heap| > 0 && Ordered(heap, |heap| - 1)
      modifies this
      ensures Valid() && Nodes() == old(Nodes()) - {old(heap)[|old(heap)| - 1].id}
      ensures heap == old(heap)[..|old(heap)| - 1]
    {
      var last := |heap| - 1;
      ghost var was := heap;
      PopNodes(heap, index);
      index := index - {heap[last].id};
      heap := heap[..last];
      forall c | 0 < c < last ensures Above(heap, c) {
        assert Above(was, c);
      }
    }
  }

  /** The last slot's node in slot i, and the node of slot i last: among the others the
      order is open only around slot i.
   */
  lemma LastMoved<T>(heap: seq<Entry<T>>, i: nat)
    requires i < |heap| && Ordered(heap, |heap|)
    ensures var n := |heap| - 1;
            OrderedBut(heap[i := heap[n]][n := heap[i]], n, i)
  {
    var n := |heap| - 1;
    var now := heap[i := heap[n]][n := heap[i]];
    forall c | 0 < c < n && c != i && Parent(c) != i ensures Above(now, c) {
      assert Above(heap, c);
    }
    forall c | 0 < c < n && i > 0 && Parent(c) == i ensures now[Parent(i)].key <= now[c].key {
      assert Above(heap, c) && Above(heap, i);
    }
  }

  /** Of a left child and the right one beside it, if there is one, the smaller. */
  function LesserChild<T>(heap: seq<Entry<T>>, n: nat, j: nat): (r: nat)
    requires j < n <= |heap|
    ensures j <= r <= j + 1 && r < n
    ensures heap[r].key <= heap[j].key && (j + 1 < n ==> heap[r].key <= heap[j + 1].key)
  {
    if j + 1 < n && heap[j + 1].key < heap[j].key then j + 1 else j
  }

  /** Exchanging an open slot with its not smaller parent opens the parent's slot instead. */
  lemma SiftUpStep<T>(heap: seq<Entry<T>>, n: nat, i: nat)
    requires 0 < i < n <= |heap|
    requires forall c :: 0 < c < n && c != i ==> Above(heap, c)
    requires OrderedBut(heap, n, i) && heap[Parent(i)].key >= heap[i].key
    ensures var j := Parent(i);
            var now := heap[i := heap[j]][j := heap[i]];
            && (forall c :: 0 < c < n && c != j ==> Above(now, c))
            && OrderedBut(now, n, j)
  {
    var j := Parent(i);
    var now := heap[i := heap[j]][j := heap[i]];
    forall c | 0 < c < n && c != j ensures Above(now, c) {
      if c != i { assert Above(heap, c); }
    }
    forall c | 0 < c < n && j > 0 && Parent(c) == j ensures now[Parent(j)].key <= now[c].key {
      assert Above(heap, j);
      if c != i { assert Above(heap, c); }
    }
  }

  /** A node on its way down from slot pre, now in slot i. */
  ghost predicate Sinking<T>(was: seq<Entry<T>>, heap: seq<Entry<T>>, n: nat, pre: nat, i: nat) {
    && pre <= i <= n <= |heap| == |was| && i < |heap|
    && OrderedBut(heap, n, i)
    && (i == pre ==> heap == was)
    && (i != pre ==> forall c :: 0 < c < n && Parent(c) != i ==> Above(heap, c))
    && (i != pre && pre > 0 ==> was[Parent(pre)].key <= was[pre].key)
    && (i != pre ==> 2 * pre + 1 < n)
    && (forall k :: n <= k < |heap| ==> heap[k] == was[k])
  }

  /** Exchanging the open slot with its lesser child, not larger than it, opens the child's. */
  lemma SinkingStep<T>(was: seq<Entry<T>>, heap: seq<Entry<T>>, n: nat, pre: nat, i: nat, j: nat)
    requires Sinking(was, heap, n, pre, i)
    requires 2 * i + 1 < n && j == LesserChild(heap, n, 2 * i + 1) && heap[j].key <= heap[i].key
    ensures Sinking(was, heap[i := heap[j]][j := heap[i]], n, pre, j)
  {
    var now := heap[i := heap[j]][j := heap[i]];
    forall c | 0 < c < n && Parent(c) != j ensures Above(now, c) {
      if c != i && Parent(c) != i { assert Above(heap, c); }
    }
    forall c | 0 < c < n && Parent(c) == j ensures now[i].key <= now[c].key {
      assert Above(heap, c);
    }
  }

  /** The loop ends with all edges closed but the one above slot pre, and that one is closed
      too if the node moved.
   */
  lemma SinkingEnd<T>(was: seq<Entry<T>>, heap: seq<Entry<T>>, n: nat, pre: nat, i: nat)
    requires Sinking(was, heap, n, pre, i)
    requires 2 * i + 1 < n ==> heap[i].key < heap[LesserChild(heap, n, 2 * i + 1)].key
    ensures forall c :: 0 < c < n && c != pre ==> Above(heap, c)
    ensures i != pre ==> Ordered(heap, n)
  {
    forall c | 0 < c < n && Parent(c) == i ensures Above(heap, c) {
      assert c == 2 * i + 1 || c == 2 * i + 2;
    }
  }
}
