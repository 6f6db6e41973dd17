/** ICE-TCP framing of src/tcp.c (section 2 of RFC 4571): every datagram goes into the byte stream behind its
    length in two bytes. Both sides resume after partial sends and receives. */
module TcpFraming {
  import opened Addr
  import opened Basics
  import opened StunBytes

  const BUFFER_SIZE := 2048
  const SCRATCH_SIZE := 1024

  type Datagram = d: Bytes | |d| <= BUFFER_SIZE

  function Frame(d: Datagram): Bytes {
    U16(|d|) + d
  }

  function Frames(ds: seq<Datagram>): Bytes {
    if ds == [] then [] else Frames(ds[..|ds| - 1]) + Frame(ds[|ds| - 1])
  }

  /** What the reader hands over: it discards empty datagrams. */
  function NonEmpty(ds: seq<Datagram>): seq<Datagram> {
    if ds == [] then []
    else NonEmpty(ds[..|ds| - 1]) + if ds[|ds| - 1] == [] then [] else [ds[|ds| - 1]]
  }

  // ---------- the writer ----------

  /** What the peer gets to see of the stream: the frames of the datagrams done, and the sent part of the
      one at hand. */
  ghost predicate OnWire(wire: Bytes, done: seq<Datagram>, current: Option<Datagram>, written: nat) {
    if current.None? then wire == Frames(done)
    else written <= 2 + |current.value| && wire == Frames(done) + Frame(current.value)[..written]
  }

  datatype WriteResult = Again | TooLong | Failed | Length(n: nat)

  /** How far a frame gets whose first `written` bytes are out, and whether to its end: each send takes of the
      rest of the header, or of the data, as much as its number says. */
  function Sent(written: nat, length: nat, sends: seq<int>): (r: (nat, bool))
    decreases |sends|
  {
    if written >= 2 + length then (written, true)
    else if sends == [] || sends[0] < 0 then (written, false)
    else
      var offered := if written < 2 then 2 - written else 2 + length - written;
      Sent(written + (if sends[0] <= offered then sends[0] else offered), length, sends[1..])
  }

  /** A frame gets to its end if enough sends take something each. */
  lemma {:induction false} SentInTheEnd(written: nat, length: nat, sends: seq<int>)
    requires forall i :: 0 <= i < |sends| ==> sends[i] > 0
    requires written + |sends| >= 2 + length && written <= 2 + length
    ensures Sent(written, length, sends) == (2 + length, true)
    decreases |sends|
  {
    if written < 2 + length {
      var offered := if written < 2 then 2 - written else 2 + length - written;
      SentInTheEnd(written + (if sends[0] <= offered then sends[0] else offered), length, sends[1..]);
    }
  }

  /** Never beyond it, never back, and to its end exactly if it says so. */
  lemma {:induction false} SentWithin(written: nat, length: nat, sends: seq<int>)
    requires written <= 2 + length
    ensures var (to, whole) := Sent(written, length, sends); written <= to <= 2 + length && (whole <==> to == 2 + length)
    decreases |sends|
  {
    if written < 2 + length && sends != [] && sends[0] >= 0 {
      var offered := if written < 2 then 2 - written else 2 + length - written;
      SentWithin(written + (if sends[0] <= offered then sends[0] else offered), length, sends[1..]);
    }
  }

  class WriteContext {
    const buffer: array<byte>
    var length: nat
    var written: nat
    var pending: bool
    ghost var wire: Bytes
    ghost var done: seq<Datagram>

    ghost predicate Valid()
      reads this, buffer
    {
      && buffer.Length == BUFFER_SIZE && length <= BUFFER_SIZE
      && OnWire(wire, done, if pending then Some(buffer[..length]) else None, written)
    }

    constructor ()
      ensures Valid() && !pending && wire == [] && done == [] && fresh(buffer)
    {
      buffer := new byte[BUFFER_SIZE](_ => 0);
      length, written, pending := 0, 0, false;
      wire, done := [], [];
    }

    /** All that was taken over for sending. */
    ghost function Accepted(): seq<Datagram>
      requires Valid()
      reads this, buffer
    {
      if pending then done + [buffer[..length]] else done
    }

    method Take(d: Datagram)
      requires Valid() && !pending
      modifies buffer, `length, `written, `pending
      ensures Valid() && pending && Accepted() == done + [d] && length == |d| && written == 0
    {
      forall i | 0 <= i < |d| {
        buffer[i] := d[i];
      }
      length, written, pending := |d|, 0, true;
      assert buffer[..length] == d;
    }

    /** One send: of the rest of the header, or of the rest of the data. */
    method Send(n: nat)
      requires Valid() && pending && written < 2 + length
      requires n <= if written < 2 then 2 - written else 2 + length - written
      modifies `written, `wire
      ensures Valid() && written == old(written) + n && old(wire) <= wire && |wire| == |old(wire)| + n
    {
      hide Frame, Frames, U16;
      FrameSlice(buffer[..length], written, n);
      assert written >= 2 ==> buffer[..length][written - 2..written - 2 + n] == buffer[written - 2..written - 2 + n];
      wire := wire + if written < 2 then U16(length)[written..written + n] else buffer[written - 2..written - 2 + n];
      written := written + n;
    }

    /** tcp_ice_write. Each number tells how much a send takes of what it is offered, below zero that it
        fails; after the last one sends fail. */
    method Write(d: Option<Bytes>, sends: seq<int>) returns (r: WriteResult)
      requires Valid()
      modifies this, buffer
      ensures Valid() && old(wire) <= wire && old(Accepted()) <= Accepted()
      ensures d.Some? && old(pending) ==> r == Again && Accepted() == old(Accepted()) && wire == old(wire)
      ensures d.Some? && !old(pending) && |d.value| > BUFFER_SIZE ==> r == TooLong && Accepted() == old(Accepted()) && wire == old(wire)
      ensures d.Some? && !old(pending) && |d.value| <= BUFFER_SIZE ==> Accepted() == old(Accepted()) + [d.value]
      ensures d.None? ==> Accepted() == old(Accepted())
      ensures r.Length? ==> !pending && wire == Frames(Accepted())
      ensures old(pending) && d.None? ==>
                var (to, whole) := Sent(old(written), old(length), sends);
                (r.Length? <==> whole) && (r.Failed? <==> !whole) && |wire| == |old(wire)| + to - old(written)
      ensures d.Some? && !old(pending) && |d.value| <= BUFFER_SIZE ==>
                var (to, whole) := Sent(0, |d.value|, sends);
                (r.Length? <==> whole) && (r.Failed? <==> !whole) && |wire| == |old(wire)| + to
      ensures r.Failed? ==> pending
    {
      if d.Some? {
        if pending {
          return Again;
        }
        if |d.value| > BUFFER_SIZE {
          return TooLong;
        }
        Take(d.value);
      }
      if pending {
        var whole := Flush(sends);
        if !whole {
          return Failed;
        }
        assert Frame(buffer[..length])[..written] == Frame(buffer[..length]);
        FramesAppend(done, buffer[..length]);
        done := done + [buffer[..length]];
      }
      pending := false;
      return Length(length);
    }

    /** The sends of one call, until the frame is out or one fails. */
    method Flush(sends: seq<int>) returns (whole: bool)
      requires Valid() && pending
      modifies `written, `wire
      ensures Valid() && (written, whole) == Sent(old(written), length, sends) && (whole <==> written == 2 + length)
      ensures old(wire) <= wire && |wire| == |old(wire)| + written - old(written)
    {
      var i := 0;
      while written < 2 + length
        invariant Valid() && old(wire) <= wire && i <= |sends|
        invariant old(written) <= written <= 2 + length && |wire| == |old(wire)| + written - old(written)
        invariant Sent(old(written), length, sends) == Sent(written, length, sends[i..])
        decreases |sends| - i
      {
        if i == |sends| || sends[i] < 0 {
          return false;
        }
        var offered := if written < 2 then 2 - written else 2 + length - written;
        assert sends[i..][0] == sends[i] && sends[i..][1..] == sends[i + 1..];
        Send(if sends[i] <= offered then sends[i] else offered);
        i := i + 1;
      }
      return true;
    }
  }

  /** The two sends take up the frame where the last one left it. */
  lemma FrameSlice(d: Datagram, written: nat, n: nat)
    requires written + n <= if written < 2 then 2 else 2 + |d|
    ensures Frame(d)[..written + n] ==
              Frame(d)[..written] + if written < 2 then U16(|d|)[written..written + n] else d[written - 2..written - 2 + n]
  {
  }

  lemma FramesAppend(ds: seq<Datagram>, d: Datagram)
    ensures Frames(ds + [d]) == Frames(ds) + Frame(d)
  {
    assert (ds + [d])[..|ds|] == ds;
  }

  /** The stream so far is always a prefix of the frames of what was accepted. */
  lemma WireIsPrefix(w: WriteContext)
    requires w.Valid()
    ensures w.wire <= Frames(w.Accepted())
  {
    if w.pending {
      FramesAppend(w.done, w.buffer[..w.length]);
    }
  }

  // ---------- the reader ----------

  /** A read context: the bytes of the header and of the data received so far, and how many in all. */
  datatype Reader = Reader(length: nat, count: nat, header: Bytes, data: Bytes)

  const FRESH := Reader(0, 0, [], [])

  /** How much the next recv asks for. */
  function Wanted(r: Reader): (n: nat)
    requires r.count < 2 + r.length
  {
    if r.count < 2 then 2 - r.count
    else if r.count < 2 + BUFFER_SIZE then (if r.length > BUFFER_SIZE then BUFFER_SIZE else r.length) - (r.count - 2)
    else if r.length - (r.count - 2) > SCRATCH_SIZE then SCRATCH_SIZE else r.length - (r.count - 2)
  }

  /** What one successful recv does to the context. */
  function Receive(r: Reader, chunk: Bytes): Reader
    requires r.count < 2 + r.length && 0 < |chunk| <= Wanted(r) && |r.header| == if r.count < 2 then r.count else 2
  {
    var s :=
      if r.count < 2 then r.(count := r.count + |chunk|, header := r.header + chunk)
      else if r.count < 2 + BUFFER_SIZE then r.(count := r.count + |chunk|, data := r.data + chunk)
      else r.(count := r.count + |chunk|);
    var t := if s.count == 2 then s.(length := FromU16(s.header)) else s;
    if t.length == 0 then t.(count := 0, header := [], data := []) else t
  }

  /** The datagram is complete. */
  predicate Complete(r: Reader) {
    r.count >= 2 + r.length
  }

  /** The reader's place in the stream: past k whole frames and r.count bytes into the next, if it has begun,
      with that frame's header read in full. */
  ghost predicate InStep(ds: seq<Datagram>, k: nat, r: Reader) {
    && k <= |ds|
    && (r.count == 0 ==> r == FRESH)
    && (r.count > 0 ==>
          && k < |ds| && ds[k] != [] && 2 <= r.count < 2 + |ds[k]|
          && r.length == |ds[k]| && r.header == U16(|ds[k]|) && r.data == ds[k][..r.count - 2])
  }

  function Consumed(ds: seq<Datagram>, k: nat, r: Reader): nat
    requires k <= |ds|
  {
    |Frames(ds[..k])| + r.count
  }

  /** The next bytes of the stream are the rest of the frame at hand. */
  lemma {:induction false} FramePlaced(ds: seq<Datagram>, k: nat)
    requires k < |ds|
    ensures |Frames(ds[..k + 1])| == |Frames(ds[..k])| + 2 + |ds[k]| <= |Frames(ds)|
    ensures Frames(ds)[|Frames(ds[..k])|..|Frames(ds[..k + 1])|] == Frame(ds[k])
    decreases |ds|
  {
    assert ds[..k + 1][..k] == ds[..k];
    if k == |ds| - 1 {
      assert ds[..k + 1] == ds;
    } else {
      var front := ds[..|ds| - 1];
      FramePlaced(front, k);
      assert front[..k] == ds[..k] && front[..k + 1] == ds[..k + 1];
      assert Frames(ds)[..|Frames(front)|] == Frames(front);
    }
  }

  /** A recv that returns the next bytes of the stream, never a lone header byte, keeps the reader in step:
      it finishes the frame at hand or goes on within it, and never takes a byte of the one after. */
  lemma ReceiveInStep(ds: seq<Datagram>, k: nat, r: Reader, chunk: Bytes)
    requires InStep(ds, k, r) && k < |ds| && 0 < |chunk| <= Wanted(r) && (r.count == 0 ==> |chunk| == 2)
    requires Consumed(ds, k, r) + |chunk| <= |Frames(ds)|
    requires chunk == Frames(ds)[Consumed(ds, k, r)..Consumed(ds, k, r) + |chunk|]
    ensures var r' := Receive(r, chunk);
            && (Complete(r') ==>
                  ds[k] != [] && r'.data == ds[k] && r'.length == |ds[k]|
                  && Consumed(ds, k, r) + |chunk| == Consumed(ds, k + 1, FRESH))
            && (!Complete(r') && ds[k] == [] ==> r' == FRESH && Consumed(ds, k, r) + |chunk| == Consumed(ds, k + 1, FRESH))
            && (!Complete(r') && ds[k] != [] ==> InStep(ds, k, r') && Consumed(ds, k, r) + |chunk| == Consumed(ds, k, r'))
  {
    hide Frames;
    FramePlaced(ds, k);
    ChunkOfFrame(Frames(ds), |Frames(ds[..k])|, Frame(ds[k]), r.count, chunk);
    ReceiveFrame(ds[k], r, chunk);
  }

  /** The same for the one frame at hand. */
  lemma ReceiveFrame(d: Datagram, r: Reader, chunk: Bytes)
    requires r == FRESH || (d != [] && 2 <= r.count < 2 + |d| && r == Reader(|d|, r.count, U16(|d|), d[..r.count - 2]))
    requires 0 < |chunk| <= Wanted(r) && (r.count == 0 ==> |chunk| == 2) && r.count + |chunk| <= 2 + |d|
    requires chunk == Frame(d)[r.count..r.count + |chunk|]
    ensures var r' := Receive(r, chunk);
            var count := r.count + |chunk|;
            if d == [] then r' == FRESH && count == 2
            else r' == Reader(|d|, count, U16(|d|), d[..count - 2]) && (Complete(r') <==> count == 2 + |d|)
  {
    U16Back(|d|);
    if r.count == 0 {
      assert chunk == U16(|d|);
      assert [] + chunk == chunk;
      assert d[..0] == [];
    } else {
      assert chunk == d[r.count - 2..r.count - 2 + |chunk|];
      assert d[..r.count - 2 + |chunk|] == d[..r.count - 2] + chunk;
    }
  }

  lemma ChunkOfFrame(s: Bytes, start: nat, frame: Bytes, from: nat, chunk: Bytes)
    requires start + |frame| <= |s| && s[start..start + |frame|] == frame
    requires from + |chunk| <= |frame| && chunk == s[start + from..start + from + |chunk|]
    ensures chunk == frame[from..from + |chunk|]
  {
    forall i | 0 <= i < |chunk| ensures chunk[i] == frame[from + i] {
      assert frame[from + i] == s[start..start + |frame|][from + i];
    }
  }

  // ---------- the reader as it runs ----------

  predicate Sound(r: Reader) {
    && r.count < 2 + r.length
    && |r.header| == (if r.count < 2 then r.count else 2)
    && |r.data| == (if r.count < 2 then 0 else if r.count < 2 + BUFFER_SIZE then r.count - 2 else BUFFER_SIZE)
    && (r.count < 2 ==> r.length == 0)
  }

  datatype Outcome = Blocked(r: Reader, pos: nat) | Delivered(data: Bytes, pos: nat)

  function Min(a: nat, b: nat): nat {
    if a < b then a else b
  }

  lemma ReceiveSound(r: Reader, chunk: Bytes)
    requires Sound(r) && 0 < |chunk| <= Wanted(r)
    ensures !Complete(Receive(r, chunk)) ==> Sound(Receive(r, chunk))
    ensures Complete(Receive(r, chunk)) ==> |Receive(r, chunk).data| == Min(Receive(r, chunk).length, BUFFER_SIZE)
  {
  }

  /** One call: receives go on until a datagram is complete or nothing more comes. */
  function Drive(stream: Bytes, r: Reader, pos: nat, sizes: seq<nat>): Outcome
    requires Sound(r) && pos <= |stream|
    decreases |sizes|
  {
    if sizes == [] then Blocked(r, pos)
    else
      var n := Min(Min(sizes[0], Wanted(r)), |stream| - pos);
      if n == 0 then Blocked(r, pos)
      else
        ReceiveSound(r, stream[pos..pos + n]);
        var s := Receive(r, stream[pos..pos + n]);
        if Complete(s) then Delivered(s.data, pos + n) else Drive(stream, s, pos + n, sizes[1..])
  }

  lemma DriveStep(stream: Bytes, r: Reader, pos: nat, sizes: seq<nat>)
    requires Sound(r) && pos <= |stream|
    ensures sizes == [] ==> Drive(stream, r, pos, sizes) == Blocked(r, pos)
    ensures sizes != [] ==>
              var n := Min(Min(sizes[0], Wanted(r)), |stream| - pos);
              if n == 0 then Drive(stream, r, pos, sizes) == Blocked(r, pos)
              else
                var s := Receive(r, stream[pos..pos + n]);
                if Complete(s) then Drive(stream, r, pos, sizes) == Delivered(s.data, pos + n)
                else Sound(s) && Drive(stream, r, pos, sizes) == Drive(stream, s, pos + n, sizes[1..])
  {
    hide Receive, Wanted;
    if sizes != [] {
      var n := Min(Min(sizes[0], Wanted(r)), |stream| - pos);
      if n != 0 {
        ReceiveSound(r, stream[pos..pos + n]);
      }
    }
  }

  /** No recv of the call returns one byte of a header alone. */
  predicate WholeHeaders(stream: Bytes, r: Reader, pos: nat, sizes: seq<nat>)
    requires Sound(r) && pos <= |stream|
    decreases |sizes|
  {
    sizes != [] ==>
      var n := Min(Min(sizes[0], Wanted(r)), |stream| - pos);
      n != 0 ==>
        && (r.count == 0 ==> n == 2)
        && (ReceiveSound(r, stream[pos..pos + n]);
            var s := Receive(r, stream[pos..pos + n]);
            Complete(s) || WholeHeaders(stream, s, pos + n, sizes[1..]))
  }

  ghost predicate AllEmpty(ds: seq<Datagram>, k: nat, l: nat)
    requires k <= l <= |ds|
  {
    forall j :: k <= j < l ==> ds[j] == []
  }

  /** A call that resumes in step delivers the next datagram that is not empty, to its last byte and no
      further, or stops in step on the way to it. The stream is what has arrived of the frames. */
  lemma {:induction false} CallDelivers(ds: seq<Datagram>, stream: Bytes, k: nat, r: Reader, sizes: seq<nat>) returns (l: nat)
    requires InStep(ds, k, r) && Sound(r) && Consumed(ds, k, r) <= |stream| && stream <= Frames(ds)
    requires WholeHeaders(stream, r, Consumed(ds, k, r), sizes)
    ensures k <= l <= |ds| && AllEmpty(ds, k, l)
    ensures match Drive(stream, r, Consumed(ds, k, r), sizes)
            case Delivered(data, pos) => l < |ds| && data == ds[l] != [] && pos == Consumed(ds, l + 1, FRESH) <= |stream|
            case Blocked(s, pos) => InStep(ds, l, s) && Sound(s) && pos == Consumed(ds, l, s) <= |stream|
    decreases |sizes|
  {
    hide Frames, Receive, Wanted, Frame;
    var pos := Consumed(ds, k, r);
    l := k;
    if sizes != [] {
      var n := Min(Min(sizes[0], Wanted(r)), |stream| - pos);
      if n != 0 {
        StreamGoesOn(ds, k, r, n);
        var chunk := stream[pos..pos + n];
        assert chunk == Frames(ds)[pos..pos + n];
        ReceiveInStep(ds, k, r, chunk);
        ReceiveSound(r, chunk);
        var s := Receive(r, chunk);
        if !Complete(s) {
          l := CallDelivers(ds, stream, if ds[k] == [] then k + 1 else k, s, sizes[1..]);
        }
      }
    }
  }

  class ReadContext {
    const buffer: array<byte>
    const header: array<byte>
    var length: nat
    var count: nat
    var pending: bool

    ghost predicate Valid()
      reads this
    {
      && buffer.Length == BUFFER_SIZE && header.Length == 2 && header != buffer
      && (pending ==> count < 2 + length && (count < 2 ==> length == 0))
    }

    ghost function View(): (r: Reader)
      requires Valid()
      reads this, buffer, header
      ensures Sound(r)
    {
      if !pending then FRESH
      else Reader(length, count, header[..Min(count, 2)], if count < 2 then [] else buffer[..Min(count - 2, BUFFER_SIZE)])
    }

    constructor ()
      ensures Valid() && View() == FRESH && fresh(buffer) && fresh(header)
    {
      buffer := new byte[BUFFER_SIZE](_ => 0);
      header := new byte[2](_ => 0);
      length, count, pending := 0, 0, false;
    }

    /** What follows one recv of the bytes given. */
    method Accept(chunk: Bytes) returns (complete: bool)
      requires Valid() && pending && 0 < |chunk| <= Wanted(View())
      modifies `length, `count, buffer, header
      ensures buffer.Length == BUFFER_SIZE && header.Length == 2
      ensures complete == Complete(Receive(old(View()), chunk))
      ensures complete ==> length == Receive(old(View()), chunk).length && buffer[..Min(length, BUFFER_SIZE)] == Receive(old(View()), chunk).data
      ensures !complete ==> Valid() && View() == Receive(old(View()), chunk)
    {
      ghost var r := View();
      ReceiveSound(r, chunk);
      Store(chunk);
      count := count + |chunk|;
      if count == 2 {
        length := FromU16(header[..]);
        assert header[..] == header[..2];
      }
      if length == 0 {
        count := 0;
      }
      complete := count >= 2 + length;
    }

    /** The bytes go into the header, into the buffer, or nowhere. */
    method Store(chunk: Bytes)
      requires Valid() && pending && 0 < |chunk| <= Wanted(View())
      modifies buffer, header
      ensures count < 2 ==> header[..count + |chunk|] == old(header[..count]) + chunk && buffer[..] == old(buffer[..])
      ensures 2 <= count ==> header[..] == old(header[..])
      ensures 2 <= count < 2 + BUFFER_SIZE ==> buffer[..count - 2 + |chunk|] == old(buffer[..count - 2]) + chunk
      ensures 2 + BUFFER_SIZE <= count ==> buffer[..] == old(buffer[..])
    {
      if count < 2 {
        forall i | 0 <= i < |chunk| {
          header[count + i] := chunk[i];
        }
      } else if count < 2 + BUFFER_SIZE {
        forall i | 0 <= i < |chunk| {
          buffer[count - 2 + i] := chunk[i];
        }
      }
    }

    /** tcp_ice_read. Each number tells how much a recv returns of what it is asked for, as far as the stream
        goes; a recv that returns nothing ends the call, to be resumed by the next one. */
    method Read(stream: Bytes, pos: nat, sizes: seq<nat>) returns (data: Option<Bytes>, next: nat)
      requires Valid() && pos <= |stream|
      modifies this, buffer, header
      ensures Valid()
      ensures data.None? ==> Drive(stream, old(View()), pos, sizes) == Blocked(View(), next)
      ensures data.Some? ==> Drive(stream, old(View()), pos, sizes) == Delivered(data.value, next) && View() == FRESH
    {
      hide Receive, Wanted, Drive;
      ghost var start := View();
      if !pending {
        length, count, pending := 0, 0, true;
      }
      assert View() == start;
      next := pos;
      var i := 0;
      while i < |sizes|
        invariant Valid() && pending && next <= |stream| && i <= |sizes|
        invariant Drive(stream, start, pos, sizes) == Drive(stream, View(), next, sizes[i..])
      {
        assert sizes[i..][1..] == sizes[i + 1..];
        DriveStep(stream, View(), next, sizes[i..]);
        var wanted := Asked();
        var n := Min(Min(sizes[i], wanted), |stream| - next);
        if n == 0 {
          return None, next;
        }
        var complete := Accept(stream[next..next + n]);
        next := next + n;
        if complete {
          pending := false;
          return Some(buffer[..Min(length, BUFFER_SIZE)]), next;
        }
        i := i + 1;
      }
      DriveStep(stream, View(), next, sizes[i..]);
      return None, next;
    }

    method Asked() returns (n: nat)
      requires Valid() && pending
      ensures n == Wanted(View())
    {
      if count < 2 {
        return 2 - count;
      } else if count < 2 + BUFFER_SIZE {
        return (if length > BUFFER_SIZE then BUFFER_SIZE else length) - (count - 2);
      } else {
        return if length - (count - 2) > SCRATCH_SIZE then SCRATCH_SIZE else length - (count - 2);
      }
    }
  }

  // ---------- whole runs of the reader ----------

  /** The reader fed with chunks of the given sizes: the context it ends with, and what it delivered. After a
      datagram is delivered the context starts afresh. */
  datatype Progress = Progress(r: Reader, out: seq<Bytes>, pos: nat)

  predicate CanFeed(stream: Bytes, p: Progress, n: nat) {
    && p.r.count < 2 + p.r.length && 0 < n <= Wanted(p.r) && p.pos + n <= |stream|
    && |p.r.header| == (if p.r.count < 2 then p.r.count else 2)
  }

  function Feed(stream: Bytes, p: Progress, n: nat): Progress
    requires CanFeed(stream, p, n)
  {
    var r := Receive(p.r, stream[p.pos..p.pos + n]);
    if Complete(r) then Progress(FRESH, p.out + [r.data], p.pos + n) else Progress(r, p.out, p.pos + n)
  }

  ghost predicate IsRun(stream: Bytes, run: seq<Progress>, sizes: seq<nat>) {
    && |run| == |sizes| + 1
    && run[0] == Progress(FRESH, [], 0)
    && forall i :: 0 <= i < |sizes| ==> CanFeed(stream, run[i], sizes[i]) && run[i + 1] == Feed(stream, run[i], sizes[i])
  }

  /** No recv returns one byte of a header alone. */
  predicate NoLoneByte(run: seq<Progress>, sizes: seq<nat>)
    requires |run| == |sizes| + 1
  {
    forall i :: 0 <= i < |sizes| && run[i].r.count == 0 ==> sizes[i] == 2
  }

  /** In every state reached the reader has delivered the datagrams whose frames it has consumed, in order and
      unaltered, and is in step with the next one. */
  lemma {:induction false} RunDelivers(ds: seq<Datagram>, run: seq<Progress>, sizes: seq<nat>, i: nat) returns (k: nat)
    requires IsRun(Frames(ds), run, sizes) && NoLoneByte(run, sizes) && i < |run|
    ensures k <= |ds| && run[i].out == NonEmpty(ds[..k])
    ensures InStep(ds, k, run[i].r) && run[i].pos == Consumed(ds, k, run[i].r)
  {
    if i == 0 {
      k := 0;
    } else {
      k := RunDelivers(ds, run, sizes, i - 1);
      k := FeedDelivers(ds, k, run[i - 1], sizes[i - 1]);
    }
  }

  lemma FeedDelivers(ds: seq<Datagram>, k: nat, p: Progress, n: nat) returns (k': nat)
    requires k <= |ds| && p.out == NonEmpty(ds[..k]) && InStep(ds, k, p.r) && p.pos == Consumed(ds, k, p.r)
    requires CanFeed(Frames(ds), p, n) && (p.r.count == 0 ==> n == 2)
    ensures var q := Feed(Frames(ds), p, n);
            k' <= |ds| && q.out == NonEmpty(ds[..k']) && InStep(ds, k', q.r) && q.pos == Consumed(ds, k', q.r)
  {
    hide Frames, Frame, NonEmpty, Receive, Wanted;
    StreamGoesOn(ds, k, p.r, n);
    var chunk := Frames(ds)[p.pos..p.pos + n];
    ReceiveInStep(ds, k, p.r, chunk);
    NonEmptyStep(ds, k);
    k' := if Complete(Receive(p.r, chunk)) || ds[k] == [] then k + 1 else k;
  }

  lemma StreamGoesOn(ds: seq<Datagram>, k: nat, r: Reader, n: nat)
    requires InStep(ds, k, r) && n > 0 && Consumed(ds, k, r) + n <= |Frames(ds)|
    ensures k < |ds|
  {
    assert ds[..|ds|] == ds;
  }

  lemma NonEmptyStep(ds: seq<Datagram>, k: nat)
    requires k < |ds|
    ensures NonEmpty(ds[..k + 1]) == NonEmpty(ds[..k]) + if ds[k] == [] then [] else [ds[k]]
  {
    assert ds[..k + 1][..k] == ds[..k];
  }

  /** When the whole stream has been received everything has been delivered. */
  lemma AllDelivered(ds: seq<Datagram>, run: seq<Progress>, sizes: seq<nat>)
    requires IsRun(Frames(ds), run, sizes) && NoLoneByte(run, sizes) && run[|sizes|].pos == |Frames(ds)|
    ensures run[|sizes|].out == NonEmpty(ds)
  {
    var k := RunDelivers(ds, run, sizes, |sizes|);
    WholeMeansAll(ds, k, run[|sizes|].r);
    assert ds[..|ds|] == ds;
  }

  lemma WholeMeansAll(ds: seq<Datagram>, k: nat, r: Reader)
    requires InStep(ds, k, r) && Consumed(ds, k, r) == |Frames(ds)|
    ensures k == |ds|
  {
    var rest := FramesBound(ds, k);
  }

  lemma FramesBound(ds: seq<Datagram>, k: nat) returns (rest: nat)
    requires k <= |ds|
    ensures |Frames(ds)| == |Frames(ds[..k])| + rest && (k < |ds| ==> rest >= 2 + |ds[k]|)
  {
    if k < |ds| {
      FramePlaced(ds, k);
    } else {
      assert ds[..k] == ds;
    }
    rest := |Frames(ds)| - |Frames(ds[..k])|;
  }

  /** A call of the reader is a sequence of such receives. */
  lemma {:induction false} DriveIsFeeds(stream: Bytes, r: Reader, out: seq<Bytes>, pos: nat, sizes: seq<nat>) returns (run: seq<Progress>, taken: seq<nat>)
    requires Sound(r) && pos <= |stream|
    ensures |run| == |taken| + 1 && run[0] == Progress(r, out, pos)
    ensures forall i :: 0 <= i < |taken| ==> CanFeed(stream, run[i], taken[i]) && run[i + 1] == Feed(stream, run[i], taken[i])
    ensures match Drive(stream, r, pos, sizes)
            case Blocked(s, next) => run[|taken|] == Progress(s, out, next)
            case Delivered(data, next) => run[|taken|] == Progress(FRESH, out + [data], next)
    decreases |sizes|
  {
    hide Receive, Wanted;
    var p := Progress(r, out, pos);
    run, taken := [p], [];
    if sizes != [] {
      var n := Min(Min(sizes[0], Wanted(r)), |stream| - pos);
      if n != 0 {
        ReceiveSound(r, stream[pos..pos + n]);
        var q := Feed(stream, p, n);
        run, taken := [p, q], [n];
        if !Complete(Receive(r, stream[pos..pos + n])) {
          var more, sizes' := DriveIsFeeds(stream, q.r, out, q.pos, sizes[1..]);
          run, taken := [p] + more, [n] + sizes';
        }
      }
    }
  }

  // ---------- writer and reader together ----------

  /** A connection: what the writer has taken over and sent, and what the reader has received and delivered. */
  datatype Link = Link(accepted: seq<Datagram>, wire: Bytes, r: Reader, pos: nat, out: seq<Bytes>)

  datatype Call = Write | Read(sizes: seq<nat>)

  /** What a call of either side does to the connection. Of the writer only what its contract and
      `WireIsPrefix` promise is used. */
  ghost predicate Calls(a: Link, b: Link, call: Call) {
    match call
    case Write =>
      b == a.(accepted := b.accepted, wire := b.wire)
      && a.accepted <= b.accepted && a.wire <= b.wire && b.wire <= Frames(b.accepted)
    case Read(sizes) =>
      && Sound(a.r) && a.pos <= |a.wire| && WholeHeaders(a.wire, a.r, a.pos, sizes)
      && match Drive(a.wire, a.r, a.pos, sizes)
         case Blocked(r, pos) => b == a.(r := r, pos := pos)
         case Delivered(data, pos) => b == a.(r := FRESH, pos := pos, out := a.out + [data])
  }

  ghost predicate IsSession(run: seq<Link>, calls: seq<Call>) {
    && |run| == |calls| + 1 && run[0] == Link([], [], FRESH, 0, [])
    && forall i :: 0 <= i < |calls| ==> Calls(run[i], run[i + 1], calls[i])
  }

  /** The reader has delivered the non-empty ones of the first k datagrams and is in step with the rest. */
  ghost predicate Through(l: Link, k: nat) {
    && l.wire <= Frames(l.accepted) && Sound(l.r) && InStep(l.accepted, k, l.r)
    && l.pos == Consumed(l.accepted, k, l.r) <= |l.wire| && l.out == NonEmpty(l.accepted[..k])
  }

  /** In every state of a connection whose reader never gets a lone header byte, what was delivered is, in order
      and unaltered, a prefix of what was accepted, without the empty datagrams. */
  lemma {:induction false} SessionDelivers(run: seq<Link>, calls: seq<Call>, i: nat) returns (k: nat)
    requires IsSession(run, calls) && i < |run|
    ensures k <= |run[i].accepted| && Through(run[i], k) && run[i].out == NonEmpty(run[i].accepted[..k])
    decreases i
  {
    hide Calls;
    if i == 0 {
      k := 0;
      assert run[0].accepted[..0] == [];
    } else {
      k := SessionDelivers(run, calls, i - 1);
      k := CallKeeps(run[i - 1], run[i - 1 + 1], calls[i - 1], k);
    }
  }

  lemma CallKeeps(a: Link, b: Link, call: Call, k: nat) returns (l: nat)
    requires Calls(a, b, call) && Through(a, k)
    ensures l <= |b.accepted| && Through(b, l)
  {
    if call.Write? {
      l := k;
      assert b.accepted[..k] == a.accepted[..k];
    } else {
      l := ReadKeeps(a, b, call.sizes, k);
    }
  }

  lemma ReadKeeps(a: Link, b: Link, sizes: seq<nat>, k: nat) returns (l: nat)
    requires Calls(a, b, Read(sizes)) && Through(a, k)
    ensures l <= |b.accepted| && Through(b, l)
  {
    hide Frames, NonEmpty, Drive, WholeHeaders;
    l := CallDelivers(a.accepted, a.wire, k, a.r, sizes);
    EmptiesVanish(a.accepted, k, l);
    if Drive(a.wire, a.r, a.pos, sizes).Delivered? {
      NonEmptyStep(a.accepted, l);
      l := l + 1;
    }
  }

  lemma {:induction false} EmptiesVanish(ds: seq<Datagram>, k: nat, l: nat)
    requires k <= l <= |ds| && AllEmpty(ds, k, l)
    ensures NonEmpty(ds[..l]) == NonEmpty(ds[..k])
    decreases l
  {
    if k < l {
      EmptiesVanish(ds, k, l - 1);
      NonEmptyStep(ds, l - 1);
    }
  }

  /** Once all that was accepted has been sent and received, all of it has been delivered. */
  lemma SessionDeliversAll(run: seq<Link>, calls: seq<Call>, i: nat)
    requires IsSession(run, calls) && i < |run| && run[i].wire == Frames(run[i].accepted) && run[i].pos == |run[i].wire|
    ensures run[i].out == NonEmpty(run[i].accepted)
  {
    hide Calls;
    var k := SessionDelivers(run, calls, i);
    WholeMeansAll(run[i].accepted, k, run[i].r);
    assert run[i].accepted[..k] == run[i].accepted;
  }

  // ---------- what a lone header byte does ----------

  /** One byte of a header alone is forgotten: the length read so far is still zero, and that clears the
      count. */
  lemma LoneByteIsLost(stream: Bytes, p: Progress)
    requires CanFeed(stream, p, 1) && p.r == FRESH
    ensures Feed(stream, p, 1) == Progress(FRESH, p.out, p.pos + 1)
  {
    assert |stream[p.pos..p.pos + 1]| == 1;
  }

  /** So a datagram of one byte received in pieces of one byte and two is never delivered. */
  lemma LoneByteLosesDatagram()
    ensures var ds: seq<Datagram> := [[65]];
            var stream := Frames(ds);
            var p0 := Progress(FRESH, [], 0);
            var p1 := Progress(FRESH, [], 1);
            && CanFeed(stream, p0, 1) && Feed(stream, p0, 1) == p1
            && CanFeed(stream, p1, 2) && Feed(stream, p1, 2).pos == |stream| && Feed(stream, p1, 2).out == [] != NonEmpty(ds)
  {
    var ds: seq<Datagram> := [[65]];
    assert ds[..0] == [];
    assert Frames(ds) == [0, 1, 65];
    var stream := Frames(ds);
    LoneByteIsLost(stream, Progress(FRESH, [], 0));
    assert stream[1..3] == [1, 65];
    assert [] + stream[1..3] == [1, 65];
  }

  lemma {:induction false} FramesGrow(ds: seq<Datagram>, k: nat, l: nat)
    requires k < l <= |ds|
    ensures |Frames(ds[..k])| + 2 <= |Frames(ds[..l])|
    decreases l
  {
    FramePlaced(ds, l - 1);
    if k < l - 1 {
      FramesGrow(ds, k, l - 1);
    }
  }

  /** A reader in step stays in step exactly if the recv does not return a lone header byte. */
  lemma InStepIffNoLoneByte(ds: seq<Datagram>, k: nat, p: Progress, n: nat)
    requires k <= |ds| && p.out == NonEmpty(ds[..k]) && InStep(ds, k, p.r) && p.pos == Consumed(ds, k, p.r)
    requires CanFeed(Frames(ds), p, n)
    ensures (exists l :: 0 <= l <= |ds| && StepsWith(ds, l, Feed(Frames(ds), p, n))) <==> !(p.r.count == 0 && n == 1)
  {
    hide Frames, NonEmpty;
    var q := Feed(Frames(ds), p, n);
    if p.r.count == 0 && n == 1 {
      LoneByteIsLost(Frames(ds), p);
      forall l | 0 <= l <= |ds| ensures !StepsWith(ds, l, q) {
        if l < k {
          FramesGrow(ds, l, k);
        } else if k < l {
          FramesGrow(ds, k, l);
        }
      }
    } else {
      var l := FeedDelivers(ds, k, p, n);
      assert StepsWith(ds, l, q);
    }
  }

  ghost predicate StepsWith(ds: seq<Datagram>, l: nat, q: Progress)
    requires l <= |ds|
  {
    InStep(ds, l, q.r) && q.pos == Consumed(ds, l, q.r)
  }
}
