/** From the byte stream of a connection to dispatched PDUs: cutting the receive buffer
    into frames, queueing them, and choosing the tool that handles each.
 */
module EventLoop {
  import opened Bytes
  import opened Wire
  import Serializer
  import opened ReceiveBuffer

  const READ_SIZE := 4096

  // ---------- framing, as a relation between bytes and frames ----------

  /** The frames cut off, what is left in the buffer, and whether the loop stopped because
      a complete frame exceeds a pool buffer (its assertion then fails).
   */
  datatype Extraction = Extraction(frames: seq<seq<byte>>, rest: seq<byte>, aborted: bool)

  function AnnouncedLen(s: seq<byte>): nat
    requires |s| >= HEADER_LEN
  {
    HEADER_LEN + Num4(s, 2)
  }

  /** No complete frame yet: a proper prefix of one frame. */
  predicate Leftover(s: seq<byte>) {
    |s| < HEADER_LEN || |s| < AnnouncedLen(s)
  }

  /** A complete frame that fits a pool buffer. */
  predicate WholeFrame(f: seq<byte>) {
    HEADER_LEN <= |f| == AnnouncedLen(f) <= POOL_BUFFER_SIZE
  }

  function Concat(pieces: seq<seq<byte>>): seq<byte> {
    if pieces == [] then [] else pieces[0] + Concat(pieces[1..])
  }

  /** e is the right way to cut s: complete frames in order, then a proper prefix of a frame,
      or a frame that is too long where the loop aborts.
   */
  ghost predicate IsExtraction(s: seq<byte>, e: Extraction) {
    && Concat(e.frames) + e.rest == s
    && (forall f :: f in e.frames ==> WholeFrame(f))
    && (if e.aborted then !Leftover(e.rest) && AnnouncedLen(e.rest) > POOL_BUFFER_SIZE
        else Leftover(e.rest))
  }

  lemma AnnouncedLenStable(a: seq<byte>, b: seq<byte>)
    requires |a| >= HEADER_LEN
    ensures AnnouncedLen(a + b) == AnnouncedLen(a)
  {
  }

  lemma ConcatCons(first: seq<byte>, more: seq<seq<byte>>)
    ensures Concat([first] + more) == first + Concat(more)
  {
    assert ([first] + more)[1..] == more;
  }

  lemma {:induction false} ConcatAppend(a: seq<seq<byte>>, b: seq<seq<byte>>)
    ensures Concat(a + b) == Concat(a) + Concat(b)
  {
    if a == [] {
      assert a + b == b;
    } else {
      ConcatAppend(a[1..], b);
      assert a + b == [a[0]] + (a[1..] + b);
      ConcatCons(a[0], a[1..] + b);
      assert a[0] + (Concat(a[1..]) + Concat(b)) == a[0] + Concat(a[1..]) + Concat(b);
    }
  }

  /** A stream that starts with a whole frame is never left over and announces that frame. */
  lemma StartsWithFrame(e: Extraction, s: seq<byte>)
    requires IsExtraction(s, e) && e.frames != []
    ensures !Leftover(s) && |e.frames[0]| == AnnouncedLen(s) <= POOL_BUFFER_SIZE
    ensures e.frames[0] == s[..AnnouncedLen(s)]
    ensures IsExtraction(s[AnnouncedLen(s)..], Extraction(e.frames[1..], e.rest, e.aborted))
  {
    var f, more := e.frames[0], Concat(e.frames[1..]) + e.rest;
    assert f in e.frames;
    assert s == f + more;
    AnnouncedLenStable(f, more);
    assert s[..|f|] == f && s[|f|..] == more;
    assert WholeFrame(f) && AnnouncedLen(s) == |f|;
    assert forall g :: g in e.frames[1..] ==> g in e.frames;
  }

  /** There is one right way to cut a stream. */
  lemma {:induction false} ExtractionUnique(s: seq<byte>, d: Extraction, e: Extraction)
    requires IsExtraction(s, d) && IsExtraction(s, e)
    ensures d == e
    decreases |d.frames|
  {
    if d.frames == [] && e.frames == [] {
      assert [] + d.rest == d.rest && [] + e.rest == e.rest;
    } else if d.frames == [] {
      StartsWithFrame(e, s);
    } else if e.frames == [] {
      StartsWithFrame(d, s);
    } else {
      StartsWithFrame(d, s);
      StartsWithFrame(e, s);
      var d', e' := Extraction(d.frames[1..], d.rest, d.aborted), Extraction(e.frames[1..], e.rest, e.aborted);
      ExtractionUnique(s[AnnouncedLen(s)..], d', e');
      assert d.frames == [d.frames[0]] + d'.frames && e.frames == [e.frames[0]] + e'.frames;
    }
  }

  /** Cutting what has come so far, keeping the rest and cutting again when more has come,
      cuts the whole stream.
   */
  lemma ExtractionJoin(a: seq<byte>, d: Extraction, b: seq<byte>, e: Extraction)
    requires IsExtraction(a, d) && !d.aborted && IsExtraction(d.rest + b, e)
    ensures IsExtraction(a + b, Extraction(d.frames + e.frames, e.rest, e.aborted))
  {
    ConcatAppend(d.frames, e.frames);
    var x, y := Concat(d.frames), Concat(e.frames);
    assert x + y + e.rest == x + (y + e.rest);
    assert x + (d.rest + b) == x + d.rest + b;
  }

  /** Where the loop has aborted, what comes later changes nothing. */
  lemma ExtractionAborted(a: seq<byte>, d: Extraction, b: seq<byte>)
    requires IsExtraction(a, d) && d.aborted
    ensures IsExtraction(a + b, Extraction(d.frames, d.rest + b, true))
  {
    AnnouncedLenStable(d.rest, b);
    assert Concat(d.frames) + (d.rest + b) == Concat(d.frames) + d.rest + b;
  }

  lemma Assoc(a: seq<byte>, b: seq<byte>, c: seq<byte>)
    ensures a + b + c == a + (b + c)
  {
  }

  // ---------- the right cut, computed ----------

  function Extract(s: seq<byte>): (e: Extraction)
    decreases |s|
  {
    if Leftover(s) then Extraction([], s, false)
    else
      var n := AnnouncedLen(s);
      if n > POOL_BUFFER_SIZE then Extraction([], s, true)
      else
        var more := Extract(s[n..]);
        Extraction([s[..n]] + more.frames, more.rest, more.aborted)
  }

  /** A right cut of what is behind a frame, with the frame in front. */
  lemma CutInFront(s: seq<byte>, more: Extraction)
    requires !Leftover(s) && AnnouncedLen(s) <= POOL_BUFFER_SIZE && IsExtraction(s[AnnouncedLen(s)..], more)
    ensures IsExtraction(s, Extraction([s[..AnnouncedLen(s)]] + more.frames, more.rest, more.aborted))
  {
    var n := AnnouncedLen(s);
    CutOne([], s);
    ConcatCons(s[..n], more.frames);
    Assoc(s[..n], Concat(more.frames), more.rest);
    assert s[..n] + s[n..] == s && [] + [s[..n]] == [s[..n]];
  }

  lemma {:induction false} ExtractIsRight(s: seq<byte>)
    ensures IsExtraction(s, Extract(s))
    decreases |s|
  {
    if !Leftover(s) && AnnouncedLen(s) <= POOL_BUFFER_SIZE {
      var n := AnnouncedLen(s);
      var more := Extract(s[n..]);
      ExtractIsRight(s[n..]);
      CutInFront(s, more);
    }
  }

  lemma ExtractIsOnly(s: seq<byte>, e: Extraction)
    requires IsExtraction(s, e)
    ensures e == Extract(s)
  {
    ExtractIsRight(s);
    ExtractionUnique(s, e, Extract(s));
  }

  /** Whole frames in front are cut off first, whatever follows. */
  lemma ExtractAfter(frames: seq<seq<byte>>, rest: seq<byte>)
    requires forall f :: f in frames ==> WholeFrame(f)
    ensures var e := Extract(rest);
            Extract(Concat(frames) + rest) == Extraction(frames + e.frames, e.rest, e.aborted)
  {
    var e := Extract(rest);
    ExtractIsRight(rest);
    ConcatAppend(frames, e.frames);
    Assoc(Concat(frames), Concat(e.frames), e.rest);
    ExtractIsOnly(Concat(frames) + rest, Extraction(frames + e.frames, e.rest, e.aborted));
  }

  // ---------- framing, as the loop does it ----------

  lemma CutOne(frames: seq<seq<byte>>, s: seq<byte>)
    requires !Leftover(s) && AnnouncedLen(s) <= POOL_BUFFER_SIZE
    ensures var n := AnnouncedLen(s);
            Concat(frames + [s[..n]]) + s[n..] == Concat(frames) + s && WholeFrame(s[..n])
  {
    var n := AnnouncedLen(s);
    ConcatAppend(frames, [s[..n]]);
    Assoc(Concat(frames), s[..n], s[n..]);
    assert s[..n] + s[n..] == s;
    AnnouncedLenStable(s[..n], s[n..]);
  }

  /** The inner loop: cuts every complete frame off the buffer and queues it. */
  method Drain(buf: Buffer) returns (frames: seq<seq<byte>>, aborted: bool)
    requires buf.Valid()
    modifies buf`readPos
    ensures buf.Valid()
    ensures Extraction(frames, buf.Contents(), aborted) == Extract(old(buf.Contents()))
  {
    frames, aborted := [], false;
    ghost var whole := buf.Contents();
    while buf.ReadAbleBytes() >= HEADER_LEN
      invariant buf.Valid()
      invariant Concat(frames) + buf.Contents() == whole
      invariant forall f :: f in frames ==> WholeFrame(f)
      decreases buf.ReadAbleBytes()
    {
      var readable := buf.data[buf.readPos..buf.writePos];
      var pduLen := AnnouncedLen(readable);
      if buf.ReadAbleBytes() < pduLen {
        break;
      }
      if pduLen > POOL_BUFFER_SIZE {
        aborted := true;
        ExtractIsOnly(whole, Extraction(frames, buf.Contents(), true));
        return;
      }
      CutOne(frames, readable);
      frames := frames + [readable[..pduLen]];
      buf.Retrieve(pduLen);
    }
    ExtractIsOnly(whole, Extraction(frames, buf.Contents(), false));
  }

  /** One `SSL_read` into the writable part, for which room bytes are made available. */
  method SslRead(buf: Buffer, bytes: seq<byte>, room: nat)
    requires buf.Valid() && |bytes| <= room
    modifies buf, buf.data
    ensures buf.Valid() && (buf.data == old(buf.data) || fresh(buf.data))
    ensures buf.Contents() == old(buf.Contents()) + bytes
  {
    buf.EnsureWriteAble(room);
    buf.Store(bytes);
    assert buf.data[buf.readPos..buf.writePos] == buf.data[..buf.writePos][buf.readPos..buf.writePos];
    buf.HasWritten(|bytes|);
  }

  /** What one call of `sslReadAll` meets: reads that bring bytes until nothing is pending, or
      until a read of zero bytes, because the client has closed, or until a failure.
   */
  datatype Call = Data(pieces: seq<seq<byte>>) | Zero(pieces: seq<seq<byte>>) | Failed(pieces: seq<seq<byte>>)

  /** Each read brings something, and no more than was asked for. */
  predicate CallOk(call: Call) {
    && (forall i :: 0 <= i < |call.pieces| ==> call.pieces[i] != [])
    && |Concat(call.pieces)| <= READ_SIZE && (call.Data? ==> call.pieces != [])
    && (call.Zero? ==> |Concat(call.pieces)| < READ_SIZE)
  }

  predicate CallsOk(calls: seq<Call>) {
    forall i :: 0 <= i < |calls| ==> CallOk(calls[i])
  }

  /** Reads until nothing is pending or READ_SIZE bytes are in. What was read stays in the
      buffer also when a read of zero bytes makes the call return 0.
   */
  method SslReadAll(buf: Buffer, call: Call) returns (r: int)
    requires buf.Valid() && CallOk(call)
    modifies buf, buf.data
    ensures buf.Valid() && (buf.data == old(buf.data) || fresh(buf.data))
    ensures r == match call case Data(_) => |Concat(call.pieces)| case Zero(_) => 0 case Failed(_) => -1
    ensures call.Data? ==> r > 0
    ensures buf.Contents() == old(buf.Contents()) + Concat(call.pieces)
  {
    r := 0;
    ghost var before, done := buf.Contents(), [];
    var i := 0;
    while i < |call.pieces|
      invariant 0 <= i <= |call.pieces|
      invariant buf.Valid() && (buf.data == old(buf.data) || fresh(buf.data))
      invariant done + Concat(call.pieces[i..]) == Concat(call.pieces) && r == |done|
      invariant i > 0 ==> r > 0
      invariant buf.Contents() == before + done
    {
      ghost var next := done + call.pieces[i];
      assert call.pieces[i..][1..] == call.pieces[i + 1..];
      assert next + Concat(call.pieces[i + 1..]) == done + (call.pieces[i] + Concat(call.pieces[i + 1..]));
      SslRead(buf, call.pieces[i], READ_SIZE - r);
      assert before + done + call.pieces[i] == before + next;
      r := r + |call.pieces[i]|;
      done := next;
      i := i + 1;
    }
    match call {
      case Data(_) =>
      case Zero(_) => r := 0;
      case Failed(_) => r := -1;
    }
  }

  // ---------- a connection, as a function of what it reads ----------

  function Read(calls: seq<Call>): seq<byte> {
    if calls == [] then [] else Concat(calls[0].pieces) + Read(calls[1..])
  }

  /** The frames that calls queue, starting with `contents` in the buffer, and what they leave
      there: only after a call that ends well is the buffer cut into frames.
   */
  function Serve(contents: seq<byte>, calls: seq<Call>): Extraction
    decreases |calls|
  {
    if calls == [] then Extraction([], contents, false)
    else
      var now := contents + Concat(calls[0].pieces);
      if !calls[0].Data? then Serve(now, calls[1..])
      else
        var e := Extract(now);
        if e.aborted then e
        else
          var more := Serve(e.rest, calls[1..]);
          Extraction(e.frames + more.frames, more.rest, more.aborted)
  }

  /** The calls one event leads to: up to the first that does not end well. */
  function Made(calls: seq<Call>): seq<Call> {
    if calls == [] then [] else [calls[0]] + if calls[0].Data? then Made(calls[1..]) else []
  }

  /** The first call that does not end well meets a read of zero bytes. */
  predicate Closes(calls: seq<Call>) {
    calls != [] && (calls[0].Zero? || (calls[0].Data? && Closes(calls[1..])))
  }

  /** That is: some call meets it, and all before end well. */
  lemma {:induction false} ClosesIff(calls: seq<Call>)
    ensures Closes(calls) <==> exists i :: 0 <= i < |calls| && calls[i].Zero? && forall j :: 0 <= j < i ==> calls[j].Data?
  {
    if calls != [] {
      ClosesIff(calls[1..]);
      if i :| 0 <= i < |calls[1..]| && calls[1..][i].Zero? && forall j :: 0 <= j < i ==> calls[1..][j].Data? {
        assert calls[i + 1] == calls[1..][i];
        if calls[0].Data? {
          forall j | 0 <= j < i + 1 ensures calls[j].Data? {
            if j > 0 { assert calls[j] == calls[1..][j - 1]; }
          }
        }
      }
      if i :| 0 <= i < |calls| && calls[i].Zero? && forall j :: 0 <= j < i ==> calls[j].Data? {
        if i > 0 { assert calls[1..][i - 1] == calls[i]; }
      }
    }
  }

  /** The calls of a connection over its events, until it is closed. */
  function AllMade(events: seq<seq<Call>>): seq<Call> {
    if events == [] then []
    else Made(events[0]) + if Closes(events[0]) then [] else AllMade(events[1..])
  }

  lemma {:induction false} ServeAppend(contents: seq<byte>, a: seq<Call>, b: seq<Call>)
    ensures var d := Serve(contents, a);
            Serve(contents, a + b) == if d.aborted then d
                                      else var e := Serve(d.rest, b); Extraction(d.frames + e.frames, e.rest, e.aborted)
    decreases |a|
  {
    if a == [] {
      assert a + b == b;
      var e := Serve(contents, b);
      assert [] + e.frames == e.frames;
    } else {
      assert (a + b)[1..] == a[1..] + b;
      var now := contents + Concat(a[0].pieces);
      if !a[0].Data? {
        ServeAppend(now, a[1..], b);
      } else if !Extract(now).aborted {
        var first := Extract(now);
        ServeAppend(first.rest, a[1..], b);
        var d := Serve(first.rest, a[1..]);
        assert first.frames + d.frames + Serve(d.rest, b).frames == first.frames + (d.frames + Serve(d.rest, b).frames);
      }
    }
  }

  lemma ServeOne(contents: seq<byte>, call: Call)
    ensures Serve(contents, [call]) == if call.Data? then Extract(contents + Concat(call.pieces))
                                       else Extraction([], contents + Concat(call.pieces), false)
  {
    assert [call][1..] == [];
    var e := Extract(contents + Concat(call.pieces));
    assert e.frames + [] == e.frames;
  }

  /** One round of the outer loop: a read, then the inner loop unless it did not end well. */
  method HandleCall(buf: Buffer, call: Call) returns (frames: seq<seq<byte>>, aborted: bool, r: int)
    requires buf.Valid() && CallOk(call)
    modifies buf, buf.data
    ensures buf.Valid() && (buf.data == old(buf.data) || fresh(buf.data))
    ensures (r == 0 <==> call.Zero?) && (r == -1 <==> call.Failed?)
    ensures Extraction(frames, buf.Contents(), aborted) == Serve(old(buf.Contents()), [call])
  {
    frames, aborted := [], false;
    ServeOne(buf.Contents(), call);
    r := SslReadAll(buf, call);
    if r != 0 && r != -1 {
      frames, aborted := Drain(buf);
    }
  }

  /** The handler of a readable connection; `calls` are those it could make before the socket
      has nothing pending. A read of zero bytes closes the connection, a failure ends the event.
   */
  method HandleClientData(buf: Buffer, calls: seq<Call>) returns (tasks: seq<seq<byte>>, aborted: bool, closed: bool)
    requires buf.Valid() && CallsOk(calls)
    modifies buf, buf.data
    ensures buf.Valid() && (buf.data == old(buf.data) || fresh(buf.data))
    ensures !aborted ==> (closed <==> Closes(calls))
    ensures Extraction(tasks, buf.Contents(), aborted) == Serve(old(buf.Contents()), Made(calls))
  {
    tasks, aborted, closed := [], false, false;
    ghost var start, done := buf.Contents(), [];
    var i := 0;
    while i < |calls|
      invariant 0 <= i <= |calls| && !aborted && !closed
      invariant buf.Valid() && (buf.data == old(buf.data) || fresh(buf.data))
      invariant Made(calls) == done + Made(calls[i..]) && (Closes(calls) <==> Closes(calls[i..]))
      invariant Extraction(tasks, buf.Contents(), false) == Serve(start, done)
    {
      OneCallDone(calls, i, done, start);
      ServeAppend(start, done, [calls[i]]);
      var frames, r;
      frames, aborted, r := HandleCall(buf, calls[i]);
      tasks := tasks + frames;
      if aborted {
        return;
      }
      if r == 0 || r == -1 {
        closed := r == 0;
        return;
      }
      done := done + [calls[i]];
      i := i + 1;
    }
    assert calls[i..] == [] && done + [] == done;
  }

  lemma OneCallDone(calls: seq<Call>, i: nat, done: seq<Call>, start: seq<byte>)
    requires i < |calls| && Made(calls) == done + Made(calls[i..])
    ensures calls[i].Data? ==> Made(calls) == done + [calls[i]] + Made(calls[i + 1..])
    ensures calls[i].Data? ==> (Closes(calls[i..]) <==> Closes(calls[i + 1..]))
    ensures !calls[i].Data? ==> Made(calls) == done + [calls[i]] && (Closes(calls[i..]) <==> calls[i].Zero?)
    ensures Serve(start, done + [calls[i]]).aborted ==> Serve(start, Made(calls)) == Serve(start, done + [calls[i]])
  {
    assert calls[i..][1..] == calls[i + 1..];
    if calls[i].Data? {
      AssocCalls(done, [calls[i]], Made(calls[i + 1..]));
      AbortIsFinal(start, done + [calls[i]], Made(calls[i + 1..]));
    }
  }

  /** A connection over its readable events, until it is closed. */
  method ServeConnection(buf: Buffer, events: seq<seq<Call>>) returns (tasks: seq<seq<byte>>, aborted: bool)
    requires buf.Valid() && forall i :: 0 <= i < |events| ==> CallsOk(events[i])
    modifies buf, buf.data
    ensures buf.Valid() && (buf.data == old(buf.data) || fresh(buf.data))
    ensures Extraction(tasks, buf.Contents(), aborted) == Serve(old(buf.Contents()), AllMade(events))
  {
    tasks, aborted := [], false;
    ghost var start, done := buf.Contents(), [];
    var i, closed := 0, false;
    while i < |events| && !closed
      invariant 0 <= i <= |events| && !aborted
      invariant buf.Valid() && (buf.data == old(buf.data) || fresh(buf.data))
      invariant AllMade(events) == done + if closed then [] else AllMade(events[i..])
      invariant Extraction(tasks, buf.Contents(), false) == Serve(start, done)
    {
      OneEventDone(events, i, done, start);
      ServeAppend(start, done, Made(events[i]));
      var frames;
      frames, aborted, closed := HandleClientData(buf, events[i]);
      tasks := tasks + frames;
      if aborted {
        return;
      }
      done := done + Made(events[i]);
      i := i + 1;
    }
    assert done + [] == done;
  }

  lemma OneEventDone(events: seq<seq<Call>>, i: nat, done: seq<Call>, start: seq<byte>)
    requires i < |events| && AllMade(events) == done + AllMade(events[i..])
    ensures AllMade(events) == done + Made(events[i]) + if Closes(events[i]) then [] else AllMade(events[i + 1..])
    ensures Serve(start, done + Made(events[i])).aborted ==> Serve(start, AllMade(events)) == Serve(start, done + Made(events[i]))
  {
    assert events[i..][1..] == events[i + 1..];
    var now, later := Made(events[i]), if Closes(events[i]) then [] else AllMade(events[i + 1..]);
    AssocCalls(done, now, later);
    AbortIsFinal(start, done + now, later);
  }

  lemma AssocCalls(a: seq<Call>, b: seq<Call>, c: seq<Call>)
    ensures a + b + c == a + (b + c)
  {
  }

  lemma AbortIsFinal(start: seq<byte>, a: seq<Call>, b: seq<Call>)
    ensures Serve(start, a).aborted ==> Serve(start, a + b) == Serve(start, a)
  {
    ServeAppend(start, a, b);
  }

  // ---------- against the right cut of everything read ----------

  /** A cut of `now`, extended by a cut of its rest with what is read later. */
  lemma CutThenMore(now: seq<byte>, later: seq<byte>, a: seq<seq<byte>>, r: seq<byte>, b: seq<seq<byte>>, rest: seq<byte>)
    requires Concat(a) + r == now && Concat(b) + rest == r + later
    ensures Concat(a + b) + rest == now + later
  {
    ConcatAppend(a, b);
    Assoc(Concat(a), Concat(b), rest);
    Assoc(Concat(a), r, later);
  }

  lemma AssocFrames(a: seq<seq<byte>>, b: seq<seq<byte>>, c: seq<seq<byte>>)
    ensures a + (b + c) == a + b + c
  {
  }

  lemma CutThenAbort(now: seq<byte>, later: seq<byte>)
    requires !Extract(now).aborted
    ensures var e, all := Extract(now), Extract(Extract(now).rest + later);
            Extract(now + later) == Extraction(e.frames + all.frames, all.rest, all.aborted)
  {
    var e := Extract(now);
    ExtractIsRight(now);
    Assoc(Concat(e.frames), e.rest, later);
    ExtractAfter(e.frames, e.rest + later);
  }

  lemma AbortedNow(now: seq<byte>, later: seq<byte>)
    requires Extract(now).aborted
    ensures Extract(now + later).frames == Extract(now).frames && Extract(now + later).aborted
  {
    var e := Extract(now);
    ExtractIsRight(now);
    ExtractionAborted(now, e, later);
    ExtractIsOnly(now + later, Extraction(e.frames, e.rest + later, true));
  }

  /** Nothing that was read is lost from the buffer, and what was queued is the beginning of
      the right cut of everything read.
   */
  lemma {:induction false} ServeIsPrefix(contents: seq<byte>, calls: seq<Call>)
    ensures var e, all := Serve(contents, calls), Extract(contents + Read(calls));
            if e.aborted then e.frames == all.frames && all.aborted
            else Concat(e.frames) + e.rest == contents + Read(calls) && all.frames == e.frames + Extract(e.rest).frames
    decreases |calls|
  {
    if calls == [] {
      assert contents + [] == contents;
      assert [] + Extract(contents).frames == Extract(contents).frames;
    } else {
      var now, later := contents + Concat(calls[0].pieces), Read(calls[1..]);
      Assoc(contents, Concat(calls[0].pieces), later);
      assert contents + Read(calls) == now + later;
      if !calls[0].Data? {
        ServeIsPrefix(now, calls[1..]);
      } else if Extract(now).aborted {
        AbortedNow(now, later);
      } else {
        var more := Serve(Extract(now).rest, calls[1..]);
        ServeIsPrefix(Extract(now).rest, calls[1..]);
        CutThenAbort(now, later);
        if !more.aborted {
          ExtractIsRight(now);
          CutThenMore(now, later, Extract(now).frames, Extract(now).rest, more.frames, more.rest);
          AssocFrames(Extract(now).frames, more.frames, Extract(more.rest).frames);
        }
      }
    }
  }

  /** However a stream is cut into calls: what is queued is the right cut of everything read
      exactly if what is left in the buffer completes no frame, unless the loop aborts, when it
      is so anyway.
   */
  lemma ServeIsCutIff(contents: seq<byte>, calls: seq<Call>)
    ensures var e := Serve(contents, calls);
            e.frames == Extract(contents + Read(calls)).frames <==> e.aborted || Extract(e.rest).frames == []
  {
    ServeIsPrefix(contents, calls);
    var e := Serve(contents, calls);
    var more := Extract(e.rest).frames;
    assert |e.frames + more| == |e.frames| + |more|;
  }

  /** The bytes read since the last call that ended well. */
  function Unframed(calls: seq<Call>): seq<byte> {
    if calls == [] || calls[|calls| - 1].Data? then []
    else Unframed(calls[..|calls| - 1]) + Concat(calls[|calls| - 1].pieces)
  }

  /** They are what the framing loop has not looked at: before them stands a proper prefix of
      one frame.
   */
  lemma {:induction false} RestIsUnframed(contents: seq<byte>, calls: seq<Call>) returns (mid: seq<byte>)
    requires Leftover(contents) && !Serve(contents, calls).aborted
    ensures Leftover(mid) && Serve(contents, calls).rest == mid + Unframed(calls)
    decreases |calls|
  {
    if calls == [] {
      mid := contents;
      assert contents + [] == contents;
    } else {
      var before, call := calls[..|calls| - 1], calls[|calls| - 1];
      assert before + [call] == calls;
      ServeAppend(contents, before, [call]);
      var d := Serve(contents, before);
      ServeOne(d.rest, call);
      if call.Data? {
        ExtractIsRight(d.rest + Concat(call.pieces));
        mid := Serve(contents, calls).rest;
        assert mid + [] == mid;
      } else {
        mid := RestIsUnframed(contents, before);
        Assoc(mid, Unframed(before), Concat(call.pieces));
      }
    }
  }

  /** As long as the last call ended well, the cut is right whatever the pieces: framing does
      not depend on fragmentation, and the leftover is a proper prefix of one frame.
   */
  lemma EndedWell(contents: seq<byte>, calls: seq<Call>)
    requires Leftover(contents) && Unframed(calls) == []
    ensures var e, all := Serve(contents, calls), Extract(contents + Read(calls));
            e.frames == all.frames && e.aborted == all.aborted && (!e.aborted ==> e == all && Leftover(e.rest))
  {
    ServeIsPrefix(contents, calls);
    var e := Serve(contents, calls);
    if !e.aborted {
      var mid := RestIsUnframed(contents, calls);
      assert mid + [] == mid;
      ServeIsCutIff(contents, calls);
      ExtractIsOnly(contents + Read(calls), e) by {
        ServedWhole(contents, calls);
      }
    }
  }

  /** What is queued are whole frames. */
  lemma {:induction false} ServedWhole(contents: seq<byte>, calls: seq<Call>)
    ensures forall f :: f in Serve(contents, calls).frames ==> WholeFrame(f)
    decreases |calls|
  {
    if calls != [] {
      var now := contents + Concat(calls[0].pieces);
      ExtractIsRight(now);
      ServedWhole(now, calls[1..]);
      if !Extract(now).aborted { ServedWhole(Extract(now).rest, calls[1..]); }
    }
  }

  /** A client that closes right behind its last frame: if the close is met by the call that
      reads the frame, the frame stays in the buffer and is never queued.
   */
  lemma LostFrameExample(f: seq<byte>)
    requires WholeFrame(f)
    ensures Serve([], [Zero([f])]) == Extraction([], f, false)
    ensures Extract([] + Read([Zero([f])])) == Extraction([f], [], false)
    ensures Serve([], [Data([f]), Zero([])]) == Extraction([f], [], false)
  {
    assert [f][1..] == [] && Concat([f]) == f + Concat([f][1..]) && f + [] == f && [] + f == f;
    ServeOne([], Zero([f]));
    ExtractAfter([f], []);
    assert [f] + [] == [f];
    assert [Zero([f])][1..] == [];
    ServeOne([], Data([f]));
    ServeAppend([], [Data([f])], [Zero([])]);
    assert [Data([f])] + [Zero([])] == [Data([f]), Zero([])];
    ServeOne([], Zero([]));
  }

  // ---------- dispatch ----------

  datatype Tool =
    | LoginTool | SignTool | CdTool | CreateDirTool | DeleteTool
    | PutsTool | GetsTool | PutsDataTool | GetsDataTool | PutsFinishTool | GetsFinishTool | GetsControlTool
    | NoTool

  /** The factory functions: the tool for a PDU, by kind and code. */
  function GetTool(p: Pdu): Tool {
    match p
    case Short(_, code, _, _, _, _, _) =>
      if code == SIGNIN then LoginTool else if code == SIGNUP then SignTool else if code == CD then CdTool
      else if code == MAKEDIR then CreateDirTool else if code == DELETEFILE then DeleteTool else NoTool
    case Tran(_, code, _, _, _, _, _, _, _) =>
      if code == PUTS || code == PUTSCONTINUE then PutsTool else if code == GETS then GetsTool else NoTool
    case TranData(_, code, _, _, _, _, _, _, _) =>
      if code == PUTS_DATA then PutsDataTool else if code == GETS_DATA then GetsDataTool else NoTool
    case TranFinish(_, code, _, _) =>
      if code == PUTS_FINISH then PutsFinishTool else if code == GETS_FINISH then GetsFinishTool else NoTool
    case TranControl(_, code, _, _, _) => if code == GETS_CONTROL then GetsControlTool else NoTool
    case Respond(_, _, _, _, _, _) => NoTool
  }

  /** Overrunning: the deserializer copies past a field or reads past the buffer. */
  datatype Handling = Handled(pdu: Pdu, tool: Tool) | NotDeserialized | Overrunning | UnknownKind

  predicate ServerKind(kind: uint16) {
    kind == PDU_TYPE || TRAN_TYPE <= kind <= TRANCONTROL_TYPE
  }

  /** The outcome for a pool buffer whose first len bytes are a queued frame. */
  function Outcome(s: seq<byte>, len: nat): Handling
    requires |s| == POOL_BUFFER_SIZE && HEADER_LEN <= len <= |s|
  {
    var kind := HeaderOf(s).kind;
    if !ServerKind(kind) then UnknownKind
    else match Parse(kind, s, len)
         case Ok(p) => Handled(p, GetTool(p))
         case Rejected => NotDeserialized
         case Overrun => Overrunning
  }

  /** The frame is handed to this tool. */
  predicate HandedTo(s: seq<byte>, len: nat, tool: Tool)
    requires |s| == POOL_BUFFER_SIZE && HEADER_LEN <= len <= |s|
  {
    Outcome(s, len).Handled? && Outcome(s, len).tool == tool
  }

  /** The frame is of this kind, can be deserialized, and its first field is this code. */
  predicate Carries(s: seq<byte>, len: nat, kind: uint16, code: uint32)
    requires |s| == POOL_BUFFER_SIZE && HEADER_LEN <= len <= |s| && ServerKind(kind)
  {
    HeaderOf(s).kind == kind && Parse(kind, s, len).Ok? && Num4(s, 8) == code
  }

  lemma HandledAsParsed(s: seq<byte>, len: nat)
    requires |s| == POOL_BUFFER_SIZE && HEADER_LEN <= len <= |s|
    ensures var kind := HeaderOf(s).kind;
            && (Outcome(s, len).Handled? <==> ServerKind(kind) && Parse(kind, s, len).Ok?)
            && (Outcome(s, len).Handled? ==>
                  var p := Outcome(s, len).pdu; p.KindTag() == kind && p.code == Num4(s, 8) && Outcome(s, len).tool == GetTool(p))
  {
  }

  /** And which frames come to nothing: those of other kinds, and of the five kinds those whose
      body is not complete, or whose chunk is not what the body length leaves for it.
   */
  lemma NotHandledIff(s: seq<byte>, len: nat)
    requires |s| == POOL_BUFFER_SIZE && HEADER_LEN <= len <= |s|
    ensures var kind, bodyLen := Num2(s, 0), Num4(s, 2);
            var known := kind == 1 || kind == 3 || kind == 4 || kind == 5 || kind == 6;
            && (Outcome(s, len).UnknownKind? <==> !known)
            && (Outcome(s, len).NotDeserialized? <==>
                  known && (len < 8 + bodyLen || (kind == 4 && bodyLen != 32 + Num4(s, 24))))
  {
  }

  /** Which frames each tool serves. */
  lemma ToolServesIff(s: seq<byte>, len: nat)
    requires |s| == POOL_BUFFER_SIZE && HEADER_LEN <= len <= |s|
    ensures HandedTo(s, len, LoginTool) <==> Carries(s, len, PDU_TYPE, SIGNIN)
    ensures HandedTo(s, len, SignTool) <==> Carries(s, len, PDU_TYPE, SIGNUP)
    ensures HandedTo(s, len, CdTool) <==> Carries(s, len, PDU_TYPE, CD)
    ensures HandedTo(s, len, CreateDirTool) <==> Carries(s, len, PDU_TYPE, MAKEDIR)
    ensures HandedTo(s, len, DeleteTool) <==> Carries(s, len, PDU_TYPE, DELETEFILE)
    ensures HandedTo(s, len, PutsTool) <==> Carries(s, len, TRAN_TYPE, PUTS) || Carries(s, len, TRAN_TYPE, PUTSCONTINUE)
    ensures HandedTo(s, len, GetsTool) <==> Carries(s, len, TRAN_TYPE, GETS)
    ensures HandedTo(s, len, PutsDataTool) <==> Carries(s, len, TRANDATA_TYPE, PUTS_DATA)
    ensures HandedTo(s, len, GetsDataTool) <==> Carries(s, len, TRANDATA_TYPE, GETS_DATA)
    ensures HandedTo(s, len, PutsFinishTool) <==> Carries(s, len, TRANFINISH_TYPE, PUTS_FINISH)
    ensures HandedTo(s, len, GetsFinishTool) <==> Carries(s, len, TRANFINISH_TYPE, GETS_FINISH)
    ensures HandedTo(s, len, GetsControlTool) <==> Carries(s, len, TRANCONTROL_TYPE, GETS_CONTROL)
  {
    HandledAsParsed(s, len);
  }

  /** Run by a pool thread on a queued frame. */
  method HandleClientTask(host: Host, buf: array<byte>) returns (r: Handling)
    requires buf.Length == POOL_BUFFER_SIZE && AnnouncedLen(buf[..]) <= POOL_BUFFER_SIZE
    ensures r == Outcome(buf[..], AnnouncedLen(buf[..]))
  {
    var header, ptr := Serializer.DeserializeHeader(host, buf);
    var pduLen := HEADER_LEN + header.bodyLen;
    var parsed := Rejected;
    if header.kind == PDU_TYPE {
      parsed := Serializer.DeserializeShort(host, buf, pduLen);
    } else if header.kind == TRAN_TYPE {
      parsed := Serializer.DeserializeTran(host, buf, pduLen);
    } else if header.kind == TRANDATA_TYPE {
      parsed := Serializer.DeserializeTranData(host, buf, pduLen);
    } else if header.kind == TRANFINISH_TYPE {
      parsed := Serializer.DeserializeTranFinish(host, buf, pduLen);
    } else if header.kind == TRANCONTROL_TYPE {
      parsed := Serializer.DeserializeTranControl(host, buf, pduLen);
    } else {
      return UnknownKind;
    }
    if parsed.Ok? {
      return Handled(parsed.pdu, GetTool(parsed.pdu));
    }
    r := if parsed.Overrun? then Overrunning else NotDeserialized;
  }

  /** A queued frame is handled within its field and buffer, whatever the pool left behind it,
      exactly if it is no short or control PDU, or its announced message length is within the
      limit even when bytes of it that the frame does not have are the largest possible.
   */
  lemma StaysWithinIff(f: seq<byte>)
    requires WholeFrame(f)
    ensures (forall buf: seq<byte> :: |buf| == POOL_BUFFER_SIZE && f <= buf ==> !Outcome(buf, |f|).Overrunning?)
       <==> var kind := HeaderOf(f).kind;
            kind == PDU_TYPE || kind == TRANCONTROL_TYPE ==> Num4(Padded(f), CountAt(kind)) <= CountLimit(kind)
  {
    var kind, worst := HeaderOf(f).kind, Padded(f);
    assert f <= worst;
    HeaderOfPrefix(f, worst);
    if ServerKind(kind) { OverrunIff(kind, worst, |f|); }
    forall buf: seq<byte> | |buf| == POOL_BUFFER_SIZE && f <= buf
      ensures Outcome(buf, |f|).Overrunning? ==>
                (kind == PDU_TYPE || kind == TRANCONTROL_TYPE) && Num4(worst, CountAt(kind)) > CountLimit(kind)
    {
      HeaderOfPrefix(f, buf);
      if ServerKind(kind) { OverrunIff(kind, buf, |f|); }
      if kind == PDU_TYPE || kind == TRANCONTROL_TYPE { PaddedIsWorst(f, buf, CountAt(kind)); }
    }
  }

  lemma HeaderOfPrefix(f: seq<byte>, buf: seq<byte>)
    requires HEADER_LEN <= |f| && f <= buf
    ensures HeaderOf(buf) == HeaderOf(f)
  {
  }

  /** A short PDU that announces 201 bytes of message is copied past its field. */
  lemma OverrunExample(f: seq<byte>, buf: seq<byte>)
    requires WholeFrame(f) && |f| >= 156 && HeaderOf(f).kind == PDU_TYPE && Num4(f, 152) == 201
    requires |buf| == POOL_BUFFER_SIZE && f <= buf
    ensures Outcome(buf, |f|) == Overrunning
  {
    HeaderOfPrefix(f, buf);
    Num4Bytes(f, 152);
    Num4Bytes(buf, 152);
    OverrunIff(PDU_TYPE, buf, |f|);
  }

  // ---------- from the client's PDUs to the server's tools ----------

  lemma AtPrefix(s: seq<byte>, t: seq<byte>, off: nat, d: seq<byte>)
    requires s <= t && At(s, off, d)
    ensures At(t, off, d)
  {
    assert t[off..off + |d|] == s[off..off + |d|];
  }

  lemma AtCut(s: seq<byte>, n: nat, off: nat, d: seq<byte>)
    requires n <= |s| && At(s, off, d) && off + |d| <= n
    ensures At(s[..n], off, d)
  {
  }

  /** The frame of a PDU stays its frame in a longer buffer, whatever follows. */
  lemma LayoutPrefix(p: Pdu, s: seq<byte>, t: seq<byte>)
    requires s <= t && Layout(p, s)
    ensures Layout(p, t)
  {
    forall off: nat, d | At(s, off, d) ensures At(t, off, d) {
      AtPrefix(s, t, off, d);
    }
  }

  /** What is sent of a buffer, its first FrameLen bytes, holds all the fields. */
  lemma LayoutCut(p: Pdu, s: seq<byte>)
    requires Check(p) == Written && Layout(p, s)
    ensures Layout(p, s[..p.FrameLen()])
  {
    forall off: nat, d | At(s, off, d) && off + |d| <= p.FrameLen() ensures At(s[..p.FrameLen()], off, d) {
      AtCut(s, p.FrameLen(), off, d);
    }
  }

  /** A PDU a client may send: one of the five kinds the server handles, accepted by the
      client's serializer.
   */
  ghost predicate Sendable(p: Pdu) {
    ServerKind(p.KindTag()) && p.HasPayload() && Check(p) == Written
  }

  /** The bytes a client puts on the connection for p; slack bytes are arbitrary. */
  ghost predicate IsFrame(p: Pdu, f: seq<byte>) {
    |f| == p.FrameLen() && Layout(p, f)
  }

  /** fs are the frames of ps, one each. */
  ghost predicate Frames(ps: seq<Pdu>, fs: seq<seq<byte>>) {
    && |ps| == |fs|
    && (forall i :: 0 <= i < |ps| ==> Sendable(ps[i]))
    && (forall i :: 0 <= i < |ps| ==> IsFrame(ps[i], fs[i]))
  }

  lemma {:induction false} FrameIsWhole(p: Pdu, f: seq<byte>)
    requires Sendable(p) && IsFrame(p, f)
    ensures WholeFrame(f)
  {
    HeaderRoundTrip(p.header, f);
  }

  /** A frame taken from the queue, in a pool buffer with any bytes behind it, is handed to
      the tool of the PDU that was sent, with that PDU's content.
   */
  ghost predicate HandledAsSent(p: Pdu, f: seq<byte>)
    requires Sendable(p) && IsFrame(p, f)
  {
    forall buf: seq<byte> :: |buf| == POOL_BUFFER_SIZE && f <= buf ==>
      AnnouncedLen(buf) == |f| && Outcome(buf, |f|) == Handled(p.Received(), GetTool(p))
  }

  lemma FrameIsHandled(p: Pdu, f: seq<byte>)
    requires Sendable(p) && IsFrame(p, f)
    ensures HandledAsSent(p, f)
  {
    forall buf: seq<byte> | |buf| == POOL_BUFFER_SIZE && f <= buf
      ensures AnnouncedLen(buf) == |f| && Outcome(buf, |f|) == Handled(p.Received(), GetTool(p))
    {
      LayoutPrefix(p, f, buf);
      HeaderRoundTrip(p.header, buf);
      RoundTrip(p, buf);
    }
  }

  /** The frames of PDUs have one right cut, these frames, and each is handled as its PDU. */
  lemma EndToEnd(ps: seq<Pdu>, fs: seq<seq<byte>>)
    requires Frames(ps, fs)
    ensures Extract(Concat(fs)) == Extraction(fs, [], false)
    ensures forall i :: 0 <= i < |ps| ==> HandledAsSent(ps[i], fs[i])
    ensures forall i :: 0 <= i < |ps| && ps[i].Tidy() ==> ps[i].Received() == ps[i]
  {
    FramesAreWhole(ps, fs);
    assert Concat(fs) + [] == Concat(fs);
    ExtractIsOnly(Concat(fs), Extraction(fs, [], false));
    forall i | 0 <= i < |ps| ensures HandledAsSent(ps[i], fs[i]) {
      FrameIsHandled(ps[i], fs[i]);
    }
    forall i | 0 <= i < |ps| && ps[i].Tidy() ensures ps[i].Received() == ps[i] {
      ReceivedUnchanged(ps[i]);
    }
  }

  lemma FramesAreWhole(ps: seq<Pdu>, fs: seq<seq<byte>>)
    requires Frames(ps, fs)
    ensures forall f :: f in fs ==> WholeFrame(f)
  {
    forall f | f in fs ensures WholeFrame(f) {
      var i :| 0 <= i < |fs| && f == fs[i];
      FrameIsWhole(ps[i], fs[i]);
    }
  }

  /** The client's side: each PDU is serialized into a pool buffer, whatever the buffer still
      holds, and the announced number of bytes is sent.
   */
  method SendAll(host: Host, pool: array<byte>, ps: seq<Pdu>) returns (sent: seq<seq<byte>>)
    requires pool.Length == POOL_BUFFER_SIZE && forall i :: 0 <= i < |ps| ==> Sendable(ps[i])
    modifies pool
    ensures Frames(ps, sent)
  {
    sent := [];
    var i := 0;
    while i < |ps|
      invariant 0 <= i <= |ps| && Frames(ps[..i], sent)
    {
      var status := Serializer.Serialize(host, pool, ps[i]);
      LayoutCut(ps[i], pool[..]);
      OneFrameMore(ps, i, sent, pool[..][..ps[i].FrameLen()]);
      sent := sent + [pool[..ps[i].FrameLen()]];
      i := i + 1;
    }
    assert ps[..|ps|] == ps;
  }

  lemma OneFrameMore(ps: seq<Pdu>, i: nat, fs: seq<seq<byte>>, f: seq<byte>)
    requires i < |ps| && Frames(ps[..i], fs) && Sendable(ps[i]) && IsFrame(ps[i], f)
    ensures Frames(ps[..i + 1], fs + [f])
  {
    var more, longer := fs + [f], ps[..i + 1];
    assert longer == ps[..i] + [ps[i]];
    forall k | 0 <= k < |longer| ensures Sendable(longer[k]) && IsFrame(longer[k], more[k]) {
      if k < i { assert longer[k] == ps[..i][k] && more[k] == fs[k]; }
    }
  }

  /** The frames that are queued are the first ones sent, the others are still in the buffer,
      and all are queued exactly if no byte was read after the last call that ended well.
   */
  lemma ArrivesInOrder(fs: seq<seq<byte>>, calls: seq<Call>)
    requires (forall f :: f in fs ==> WholeFrame(f)) && Read(calls) == Concat(fs)
    ensures var e := Serve([], calls);
            && !e.aborted && e.frames <= fs && e.rest == Concat(fs[|e.frames|..])
            && (e.frames == fs <==> Unframed(calls) == [])
  {
    var e := Serve([], calls);
    ArrivedSoFar(fs, calls);
    var mid := RestIsUnframed([], calls);
    if Unframed(calls) == [] {
      assert mid + [] == mid;
      assert [] + Read(calls) == Concat(fs);
      ServeIsCutIff([], calls);
    }
  }

  lemma ArrivedSoFar(fs: seq<seq<byte>>, calls: seq<Call>)
    requires (forall f :: f in fs ==> WholeFrame(f)) && Read(calls) == Concat(fs)
    ensures var e := Serve([], calls);
            && !e.aborted && Extract(Concat(fs)).frames == fs && e.frames <= fs && e.rest == Concat(fs[|e.frames|..])
  {
    var e := Serve([], calls);
    assert [] + Read(calls) == Concat(fs) && Concat(fs) + [] == Concat(fs);
    ExtractIsOnly(Concat(fs), Extraction(fs, [], false));
    ServeIsPrefix([], calls);
    var k := |e.frames|;
    assert fs == e.frames + Extract(e.rest).frames;
    assert fs[..k] == e.frames && fs == fs[..k] + fs[k..];
    ConcatAppend(fs[..k], fs[k..]);
    SameTail(Concat(fs[..k]), e.rest, Concat(fs[k..]));
  }

  lemma SameTail(a: seq<byte>, b: seq<byte>, c: seq<byte>)
    requires a + b == a + c
    ensures b == c
  {
    assert (a + b)[|a|..] == b && (a + c)[|a|..] == c;
  }

  /** Client and server together: the PDUs are sent, and the network delivers the bytes in any
      pieces, calls and events. The server queues the frames of the first PDUs, in order, and
      hands each to the tool and with the content of its PDU; the other frames stay in its
      buffer. None is left exactly if no byte is read after the last call that ended well.
   */
  method Transmit(host: Host, pool: array<byte>, ps: seq<Pdu>, network: seq<byte> -> seq<seq<Call>>, buf: Buffer)
    returns (ghost sent: seq<seq<byte>>, tasks: seq<seq<byte>>, aborted: bool)
    requires pool.Length == POOL_BUFFER_SIZE && forall i :: 0 <= i < |ps| ==> Sendable(ps[i])
    requires forall s :: Read(AllMade(network(s))) == s && forall i :: 0 <= i < |network(s)| ==> CallsOk(network(s)[i])
    requires buf.Valid() && buf.Contents() == [] && pool != buf.data
    modifies pool, buf, buf.data
    ensures buf.Valid() && !aborted && Frames(ps, sent)
    ensures tasks <= sent && buf.Contents() == Concat(sent[|tasks|..])
    ensures tasks == sent <==> Unframed(AllMade(network(Concat(sent)))) == []
    ensures forall i :: 0 <= i < |tasks| ==> HandledAsSent(ps[i], tasks[i])
    ensures forall i :: 0 <= i < |ps| && ps[i].Tidy() ==> ps[i].Received() == ps[i]
  {
    var out := SendAll(host, pool, ps);
    sent := out;
    tasks, aborted := ServeConnection(buf, network(Concat(out)));
    FramesAreWhole(ps, out);
    ArrivesInOrder(out, AllMade(network(Concat(out))));
    EndToEnd(ps, out);
  }

  /** Serializing what an accepted data frame parsed to gives that frame's bytes again. */
  lemma DataFrameReserializes(s: seq<byte>, len: nat, t: seq<byte>)
    requires |s| == POOL_BUFFER_SIZE && len <= |s|
    requires Parse(TRANDATA_TYPE, s, len).Ok?
    requires Layout(Parse(TRANDATA_TYPE, s, len).pdu, t)
    ensures var p := Parse(TRANDATA_TYPE, s, len).pdu;
            Check(p) == Written && s[..p.FrameLen()] == t[..p.FrameLen()]
  {
    AcceptedDataFrame(s, len);
    DataFrameBytes(Parse(TRANDATA_TYPE, s, len).pdu, s, t);
  }
}
