/** The load balancer's event loop: servers register, report their connection counts and
    leave; clients ask for a server and get one with the fewest connections.
 */
module Equalizer {
  import opened IndexedHeap
  import opened Options
  import opened ServerHeap

  /** What a connecting server announces of itself. */
  datatype ServerInfoPack = ServerInfoPack(name: string, ip: string, sport: nat, lport: nat, conCount: nat)

  /** One event of the loop. `accepted`: both reads succeeded, the key was right and the
      answer could be sent. `parsed`: the state report could be deserialized.
   */
  datatype Event =
    | NewServer(sock: int, pack: ServerInfoPack, accepted: bool)
    | ServerState(sock: int, parsed: bool, code: nat, conCount: nat)
    | HangUp(sock: int)
    | NewClient

  /** The servers by socket, as a plain map. */
  type Table = map<int, Entry<ServerInfo>>

  /** The ports travel as 32-bit numbers and are kept as 16-bit ones. */
  function InfoOf(pack: ServerInfoPack): ServerInfo {
    ServerInfo(pack.name, pack.ip, pack.sport % 0x1_0000, pack.lport % 0x1_0000)
  }

  function After(t: Table, e: Event): Table {
    match e
    case NewServer(sock, pack, accepted) =>
      if accepted then t[sock := Entry(sock, pack.conCount, InfoOf(pack))] else t
    case ServerState(sock, parsed, code, conCount) =>
      if !parsed || sock !in t then t
      else if code == 0 then t[sock := t[sock].(key := conCount)]
      else if code == 1 then t - {sock}
      else t
    case HangUp(sock) => t - {sock}
    case NewClient => t
  }

  /** What the operating system grants: a new connection has a positive descriptor that is
      not open, and only watched descriptors report.
   */
  predicate CanHappen(t: Table, e: Event) {
    match e
    case NewServer(sock, _, _) => sock > 0 && sock !in t
    case ServerState(sock, _, _, _) => sock in t
    case HangUp(sock) => sock in t
    case NewClient => true
  }

  predicate AllCanHappen(t: Table, events: seq<Event>)
    decreases |events|
  {
    events == [] || (CanHappen(t, events[0]) && AllCanHappen(After(t, events[0]), events[1..]))
  }

  /** A client is sent a server with the least count, and nothing only if there is none. */
  ghost predicate LeastLoaded(t: Table, reply: Option<ServerInfo>) {
    match reply
    case None => t == map[]
    case Some(info) =>
      exists sock :: sock in t && t[sock].info == info && forall other :: other in t ==> t[sock].key <= t[other].key
  }

  /** Every client event got a right reply, in order. */
  ghost predicate RightReplies(t: Table, events: seq<Event>, replies: seq<Option<ServerInfo>>)
    decreases |events|
  {
    if events == [] then replies == []
    else if events[0].NewClient? then
      replies != [] && LeastLoaded(t, replies[0]) && RightReplies(t, events[1..], replies[1..])
    else RightReplies(After(t, events[0]), events[1..], replies)
  }

  function AfterAll(t: Table, events: seq<Event>): Table
    decreases |events|
  {
    if events == [] then t else AfterAll(After(t, events[0]), events[1..])
  }

  /** Replies so far that any right replies to the rest would complete. */
  ghost predicate RightSoFar(start: Table, events: seq<Event>, replies: seq<Option<ServerInfo>>, t: Table, rest: seq<Event>) {
    forall more :: RightReplies(t, rest, more) ==> RightReplies(start, events, replies + more)
  }

  lemma OneMoreReply(start: Table, events: seq<Event>, replies: seq<Option<ServerInfo>>, t: Table, rest: seq<Event>,
                     reply: Option<ServerInfo>)
    requires RightSoFar(start, events, replies, t, rest)
    requires rest != [] && rest[0].NewClient? && LeastLoaded(t, reply)
    ensures RightSoFar(start, events, replies + [reply], t, rest[1..])
  {
    forall more | RightReplies(t, rest[1..], more) ensures RightReplies(start, events, replies + [reply] + more) {
      assert ([reply] + more)[1..] == more;
      assert RightReplies(t, rest, [reply] + more);
      assert replies + ([reply] + more) == replies + [reply] + more;
    }
  }

  class Equalizer {
    const servers: ServerHeap
    var watched: set<int>

    /** The watched server sockets are exactly the sockets in the heap. */
    ghost predicate Valid()
      reads this, servers.h
    {
      servers.Valid() && watched == servers.Servers().Keys
    }

    constructor ()
      ensures Valid() && fresh(servers) && fresh(servers.h) && servers.Servers() == map[]
    {
      servers := new ServerHeap();
      watched := {};
    }

    method RecvServerInfo(sock: int, pack: ServerInfoPack, accepted: bool)
      requires Valid() && CanHappen(servers.Servers(), NewServer(sock, pack, accepted))
      modifies this, servers.h
      ensures Valid()
      ensures servers.Servers() == After(old(servers.Servers()), NewServer(sock, pack, accepted))
    {
      if !accepted {
        return;
      }
      servers.Add(sock, InfoOf(pack), pack.conCount);
      watched := watched + {sock};
    }

    /** The assertion in Adjust, that the socket is in the heap, is its precondition here. */
    method RecvServerState(sock: int, parsed: bool, code: nat, conCount: nat)
      requires Valid() && sock in watched
      modifies this, servers.h
      ensures Valid()
      ensures servers.Servers() == After(old(servers.Servers()), ServerState(sock, parsed, code, conCount))
    {
      if !parsed {
        return;
      }
      if code == 0 {
        servers.Adjust(sock, conCount);
      } else if code == 1 {
        DelServer(sock);
      }
    }

    method DelServer(sock: int)
      requires Valid()
      modifies this, servers.h
      ensures Valid() && servers.Servers() == old(servers.Servers()) - {sock}
    {
      servers.Pop(sock);
      watched := watched - {sock};
    }

    method SendServerInfoToClient() returns (reply: Option<ServerInfo>)
      requires Valid()
      ensures LeastLoaded(servers.Servers(), reply)
    {
      var min := servers.GetMinServerInfo();
      match min
      case None => reply := None;
      case Some(node) => reply := Some(node.info);
    }

    /** The loop over any sequence of events that can happen. */
    method Start(events: seq<Event>) returns (replies: seq<Option<ServerInfo>>)
      requires Valid() && AllCanHappen(servers.Servers(), events)
      modifies this, servers.h
      ensures Valid()
      ensures servers.Servers() == AfterAll(old(servers.Servers()), events)
      ensures RightReplies(old(servers.Servers()), events, replies)
      ensures old(servers.Servers()) == map[] ==> AllServed(events, replies)
    {
      replies := [];
      ghost var start := servers.Servers();
      var i := 0;
      assert forall more :: replies + more == more;
      while i < |events|
        invariant 0 <= i <= |events| && Valid()
        invariant AllCanHappen(servers.Servers(), events[i..])
        invariant AfterAll(servers.Servers(), events[i..]) == AfterAll(start, events)
        invariant RightSoFar(start, events, replies, servers.Servers(), events[i..])
      {
        var e := events[i];
        assert events[i..][0] == e && events[i..][1..] == events[i + 1..];
        ghost var t := servers.Servers();
        match e {
          case NewServer(sock, pack, accepted) => RecvServerInfo(sock, pack, accepted);
          case ServerState(sock, parsed, code, conCount) => RecvServerState(sock, parsed, code, conCount);
          case HangUp(sock) => DelServer(sock);
          case NewClient =>
            var reply := SendServerInfoToClient();
            OneMoreReply(start, events, replies, t, events[i..], reply);
            replies := replies + [reply];
        }
        i := i + 1;
      }
      assert RightReplies(servers.Servers(), [], []);
      assert replies + [] == replies;
      if start == map[] { RepliesAreByHistory(events, replies); }
    }
  }

  // ---------- the table holds what was reported last ----------

  /** The count reported last on a socket, found by going back through the events: none if
      the server has left since, or has never registered.
   */
  function LastReport(events: seq<Event>, sock: int): Option<nat>
    decreases |events|
  {
    if events == [] then None
    else
      var before := events[..|events| - 1];
      match events[|events| - 1]
      case NewServer(s, pack, accepted) =>
        if s == sock && accepted then Some(pack.conCount) else LastReport(before, sock)
      case ServerState(s, parsed, code, conCount) =>
        if s != sock || !parsed || code > 1 then LastReport(before, sock)
        else if code == 1 || LastReport(before, sock).None? then None
        else Some(conCount)
      case HangUp(s) => if s == sock then None else LastReport(before, sock)
      case NewClient => LastReport(before, sock)
  }

  lemma {:induction false} AfterAllSnoc(t: Table, events: seq<Event>, e: Event)
    ensures AfterAll(t, events + [e]) == After(AfterAll(t, events), e)
    decreases |events|
  {
    if events == [] {
    } else {
      assert (events + [e])[1..] == events[1..] + [e];
      AfterAllSnoc(After(t, events[0]), events[1..], e);
    }
  }

  /** So `least` in the replies is by the last report of each server that is still there. */
  lemma {:induction false} TableHoldsLastReports(events: seq<Event>, sock: int)
    ensures var t := AfterAll(map[], events);
            LastReport(events, sock) == if sock in t then Some(t[sock].key) else None
    decreases |events|
  {
    if events != [] {
      var before, e := events[..|events| - 1], events[|events| - 1];
      assert events == before + [e];
      AfterAllSnoc(map[], before, e);
      TableHoldsLastReports(before, sock);
    }
  }

  // ---------- clients get what was registered ----------

  /** What was announced last with success on a socket, going back through the events. */
  function LastRegistration(events: seq<Event>, sock: int): Option<ServerInfoPack>
    decreases |events|
  {
    if events == [] then None
    else
      var last := events[|events| - 1];
      if last.NewServer? && last.sock == sock && last.accepted then Some(last.pack)
      else LastRegistration(events[..|events| - 1], sock)
  }

  /** The information is that of the announcement; the ports are kept modulo 2^16. */
  predicate Announced(info: ServerInfo, pack: ServerInfoPack) {
    && info.name == pack.name && info.ip == pack.ip
    && info.sPort < 0x1_0000 && info.lPort < 0x1_0000
    && (pack.sport < 0x1_0000 ==> info.sPort == pack.sport) && (pack.lport < 0x1_0000 ==> info.lPort == pack.lport)
  }

  lemma {:induction false} TableHoldsRegistrations(events: seq<Event>, sock: int)
    requires sock in AfterAll(map[], events)
    ensures var pack := LastRegistration(events, sock);
            pack.Some? && Announced(AfterAll(map[], events)[sock].info, pack.value)
    decreases |events|
  {
    if events != [] {
      var before, e := events[..|events| - 1], events[|events| - 1];
      assert events == before + [e];
      AfterAllSnoc(map[], before, e);
      if sock in AfterAll(map[], before) { TableHoldsRegistrations(before, sock); }
    }
  }

  /** The right reply after these events, by the events alone: the announcement of a server
      that is still there and whose last reported count nobody else's undercuts, or nothing if
      no server is there.
   */
  ghost predicate ReplyByHistory(events: seq<Event>, reply: Option<ServerInfo>) {
    match reply
    case None => forall sock :: LastReport(events, sock).None?
    case Some(info) => exists sock :: ServesBest(events, sock, info)
  }

  ghost predicate ServesBest(events: seq<Event>, sock: int, info: ServerInfo) {
    && LastReport(events, sock).Some? && LastRegistration(events, sock).Some?
    && Announced(info, LastRegistration(events, sock).value)
    && forall other :: LastReport(events, other).Some? ==> LastReport(events, sock).value <= LastReport(events, other).value
  }

  lemma ReplyIsByHistory(events: seq<Event>, reply: Option<ServerInfo>)
    requires LeastLoaded(AfterAll(map[], events), reply)
    ensures ReplyByHistory(events, reply)
  {
    var t := AfterAll(map[], events);
    forall sock ensures LastReport(events, sock) == if sock in t then Some(t[sock].key) else None {
      TableHoldsLastReports(events, sock);
    }
    if reply.Some? {
      var sock :| sock in t && t[sock].info == reply.value && forall other :: other in t ==> t[sock].key <= t[other].key;
      TableHoldsRegistrations(events, sock);
      assert ServesBest(events, sock, reply.value);
    }
  }

  /** How many clients have asked. */
  function Clients(events: seq<Event>): nat {
    if events == [] then 0 else Clients(events[..|events| - 1]) + if events[|events| - 1].NewClient? then 1 else 0
  }

  /** Every client got one reply, right by what had happened before it asked. */
  ghost predicate AllServed(events: seq<Event>, replies: seq<Option<ServerInfo>>) {
    && |replies| == Clients(events)
    && forall i :: 0 <= i < |events| && events[i].NewClient? ==>
         Clients(events[..i]) < |replies| && ReplyByHistory(events[..i], replies[Clients(events[..i])])
  }

  lemma {:induction false} ServedFrom(past: seq<Event>, given: seq<Option<ServerInfo>>, events: seq<Event>, replies: seq<Option<ServerInfo>>)
    requires AllServed(past, given) && RightReplies(AfterAll(map[], past), events, replies)
    ensures AllServed(past + events, given + replies)
    decreases |events|
  {
    if events == [] {
      assert past + events == past && given + replies == given;
    } else {
      var e, rest := events[0], events[1..];
      AfterAllSnoc(map[], past, e);
      assert past + [e] + rest == past + events;
      if e.NewClient? {
        var reply, others := replies[0], replies[1..];
        ReplyIsByHistory(past, reply);
        OneMoreServed(past, given, e, reply);
        ServedFrom(past + [e], given + [reply], rest, others);
        assert given + [reply] + others == given + replies;
      } else {
        NobodyServed(past, given, e);
        ServedFrom(past + [e], given, rest, replies);
      }
    }
  }

  lemma OneMoreServed(past: seq<Event>, given: seq<Option<ServerInfo>>, e: Event, reply: Option<ServerInfo>)
    requires AllServed(past, given) && e.NewClient? && ReplyByHistory(past, reply)
    ensures AllServed(past + [e], given + [reply])
  {
    var more := past + [e];
    assert more[..|past|] == past;
    forall i | 0 <= i < |more| && more[i].NewClient?
      ensures Clients(more[..i]) < |given| + 1 && ReplyByHistory(more[..i], (given + [reply])[Clients(more[..i])])
    {
      assert more[..i] == past[..i];
    }
  }

  lemma NobodyServed(past: seq<Event>, given: seq<Option<ServerInfo>>, e: Event)
    requires AllServed(past, given) && !e.NewClient?
    ensures AllServed(past + [e], given)
  {
    var more := past + [e];
    assert more[..|past|] == past;
    forall i | 0 <= i < |more| && more[i].NewClient?
      ensures Clients(more[..i]) < |given| && ReplyByHistory(more[..i], given[Clients(more[..i])])
    {
      assert more[..i] == past[..i];
    }
  }

  /** A balancer that starts empty serves every client by what the servers last announced and
      reported.
   */
  lemma RepliesAreByHistory(events: seq<Event>, replies: seq<Option<ServerInfo>>)
    requires RightReplies(map[], events, replies)
    ensures AllServed(events, replies)
  {
    ServedFrom([], [], events, replies);
    assert [] + events == events && [] + replies == replies;
  }
}
