/** The load balancer's heap of servers, ordered by connection count. */
module ServerHeap {
  import opened IndexedHeap
  import opened Options

  /** What the balancer knows of a server besides its socket (the id) and its connection
      count (the key).
   */
  datatype ServerInfo = ServerInfo(name: string, ip: string, sPort: nat, lPort: nat)

  class ServerHeap {
    const h: Heap<ServerInfo>

    ghost predicate Valid()
      reads h
    {
      h.Valid()
    }

    /** The registered servers by socket. */
    ghost function Servers(): map<int, Entry<ServerInfo>>
      requires Valid()
      reads h
    {
      h.Nodes()
    }

    constructor ()
      ensures Valid() && fresh(h) && Servers() == map[]
    {
      h := new Heap();
    }

    predicate Contains(sock: int)
      requires Valid()
      reads h
      ensures Contains(sock) <==> sock in Servers()
    {
      sock in h.index
    }

    /** Sets the connection count of a registered server, up or down. */
    method Adjust(sock: int, count: nat)
      requires Valid() && sock in Servers()
      modifies h
      ensures Valid()
      ensures Servers() == old(Servers())[sock := old(Servers())[sock].(key := count)]
    {
      var i := h.index[sock];
      h.Replace(i, h.heap[i].(key := count));
      h.Settle(i, |h.heap|);
    }

    /** Registers a server, or replaces all that is known of one registered already. */
    method Add(sock: int, info: ServerInfo, count: nat)
      requires Valid()
      modifies h
      ensures Valid()
      ensures Servers() == old(Servers())[sock := Entry(sock, count, info)]
    {
      if sock !in h.index {
        var i := |h.heap|;
        h.PushBack(Entry(sock, count, info));
        h.SiftUp(i, |h.heap|);
      } else {
        var i := h.index[sock];
        h.Replace(i, Entry(sock, count, info));
        h.Settle(i, |h.heap|);
      }
    }

    /** A server with the least connection count. */
    method GetMinServerInfo() returns (min: Option<Entry<ServerInfo>>)
      requires Valid()
      ensures min.None? <==> Servers() == map[]
      ensures min.Some? ==> min.value.id in Servers() && Servers()[min.value.id] == min.value
                            && forall sock :: sock in Servers() ==> min.value.key <= Servers()[sock].key
    {
      if |h.heap| == 0 {
        assert forall sock :: sock !in Servers();
        return None;
      }
      min := Some(h.heap[0]);
      assert h.heap[0].id in Servers();
      forall sock | sock in Servers() ensures h.heap[0].key <= Servers()[sock].key {
        RootIsLeast(h.heap, h.index[sock]);
      }
    }

    /** Removes the server on the socket, if there is one, and no other. */
    method Pop(sock: int)
      requires Valid()
      modifies h
      ensures Valid() && Servers() == old(Servers()) - {sock}
    {
      if sock !in h.index {
        return;
      }
      Del(h.index[sock]);
    }

    method Del(i: nat)
      requires Valid() && i < |h.heap|
      modifies h
      ensures Valid() && Servers() == old(Servers()) - {old(h.heap)[i].id}
    {
      var n := |h.heap| - 1;
      if i < n {
        LastMoved(h.heap, i);
        h.SwapNode(i, n);
        h.Settle(i, n);
      }
      h.PopBack();
    }
  }
}
