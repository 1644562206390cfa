/** Multiplexing stdout and stderr into one stream of frames and taking them apart again (docker/utils/stdcopy.go). */
module StdCopying {
  import opened Wrappers

  const PREFIX_LEN := 8
  const SIZE_INDEX := 4
  const BUF_LEN := 32 * 1024 + PREFIX_LEN + 1
  const TWO_32 := 0x1_0000_0000

  datatype StdType = Stdin | Stdout | Stderr
  {
    function Code(): Byte {
      match this case Stdin => 0 case Stdout => 1 case Stderr => 2
    }
  }

  // binary.BigEndian.PutUint32 and Uint32
  function PutUint32(n: nat): seq<Byte>
    requires n < TWO_32
  {
    [n / 0x100_0000, n / 0x1_0000 % 0x100, n / 0x100 % 0x100, n % 0x100]
  }

  function Uint32(b: seq<Byte>): (n: nat)
    requires |b| == 4
    ensures n < TWO_32
  {
    (b[0] as int) * 0x100_0000 + (b[1] as int) * 0x1_0000 + (b[2] as int) * 0x100 + b[3] as int
  }

  lemma Uint32RoundTrip(n: nat)
    requires n < TWO_32
    ensures Uint32(PutUint32(n)) == n
  {
    var a, b := n / 0x100, n / 0x1_0000;
    assert n == a * 0x100 + n % 0x100;
    assert a / 0x100 == b && b / 0x100 == n / 0x100_0000;
    assert a == b * 0x100 + a % 0x100 && b == n / 0x100_0000 * 0x100 + b % 0x100;
  }

  /** One write as it goes down the stream; the length is kept in 32 bits. */
  function Frame(t: StdType, payload: seq<Byte>): seq<Byte> {
    [t.Code(), 0, 0, 0] + PutUint32(|payload| % TWO_32) + payload
  }

  /** The header says which stream the frame is for and, in big-endian order, how long the payload is, modulo 2^32. */
  lemma HeaderBytes(t: StdType, payload: seq<Byte>)
    ensures var f := Frame(t, payload);
      && |f| == PREFIX_LEN + |payload| && f[PREFIX_LEN..] == payload
      && f[0] == (if t == Stdin then 0 else if t == Stdout then 1 else 2) && f[1] == f[2] == f[3] == 0
      && f[4] as int * 0x100_0000 + f[5] as int * 0x1_0000 + f[6] as int * 0x100 + f[7] as int == |payload| % TWO_32
  {
    Uint32RoundTrip(|payload| % TWO_32);
    var f, size := Frame(t, payload), PutUint32(|payload| % TWO_32);
    assert f[4] == size[0] && f[5] == size[1] && f[6] == size[2] && f[7] == size[3];
  }

  // ---- the meaning of a stream ----

  datatype Status = Done | BadHeader | ReadFailed | WriteFailed

  datatype Copied = Copied(out: seq<Byte>, err: seq<Byte>, written: nat, status: Status)
  {
    function After(toErr: bool, payload: seq<Byte>): Copied {
      if toErr then Copied(out, payload + err, |payload| + written, status)
      else Copied(payload + out, err, |payload| + written, status)
    }
  }

  function FrameEnd(s: seq<Byte>): (n: nat)
    requires |s| >= PREFIX_LEN
    ensures n >= PREFIX_LEN
  {
    PREFIX_LEN + Uint32(s[SIZE_INDEX..PREFIX_LEN])
  }

  /** What a stream that ends in EOF delivers to two writers with that much room: whole frames in order, up to a bad
      header, a frame that does not fit its writer, or a cut. */
  function Demux(s: seq<Byte>, outRoom: nat, errRoom: nat): Copied
    decreases |s|
  {
    if |s| < PREFIX_LEN then Copied([], [], 0, Done)
    else if s[0] > 2 then Copied([], [], 0, BadHeader)
    else if |s| < FrameEnd(s) then Copied([], [], 0, Done)
    else
      var payload := s[PREFIX_LEN..FrameEnd(s)];
      var toErr := s[0] == 2;
      var room := if toErr then errRoom else outRoom;
      if |payload| > room then Copied([], [], 0, WriteFailed).After(toErr, payload[..room])
      else
        Demux(s[FrameEnd(s)..], if toErr then outRoom else outRoom - |payload|,
              if toErr then errRoom - |payload| else errRoom).After(toErr, payload)
  }

  // ---- the two ends ----

  /** A byte stream that ends in EOF, or in an error. How many bytes a Read delivers is up to the stream; it may deliver
      none a bounded number of times, and may report its end together with its last bytes or after them. */
  class Source {
    var rest: seq<Byte>
    var stalls: nat
    const fails: bool

    constructor (data: seq<Byte>, stalls: nat, fails: bool)
      ensures rest == data && this.stalls == stalls && this.fails == fails
    {
      rest, this.stalls, this.fails := data, stalls, fails;
    }

    method Read(buf: array<Byte>, from: nat) returns (n: nat, ended: bool)
      requires from < buf.Length
      modifies this, buf
      ensures n <= |old(rest)| && from + n <= buf.Length
      ensures rest == old(rest)[n..] && buf[..] == old(buf[..from]) + old(rest)[..n] + old(buf[from + n..])
      ensures ended ==> rest == []
      ensures stalls <= old(stalls) && (n == 0 && !ended ==> stalls < old(stalls))
    {
      var most := if |rest| <= buf.Length - from then |rest| else buf.Length - from;
      n :| 0 <= n <= most;
      if n == 0 && stalls == 0 && most > 0 {
        n := 1;
      }
      forall k | 0 <= k < n {
        buf[from + k] := rest[k];
      }
      rest := rest[n..];
      ended := *;
      if rest != [] {
        ended := false;
      } else if n == 0 && stalls == 0 {
        ended := true;
      }
      if n == 0 && !ended {
        stalls := stalls - 1;
      }
    }
  }

  /** A writer that takes as many bytes as it has room for, and reports a write it could not take whole. */
  class Sink {
    var data: seq<Byte>
    var room: nat

    constructor (room: nat)
      ensures data == [] && this.room == room
    {
      data, this.room := [], room;
    }

    method Write(p: seq<Byte>) returns (nw: nat, failed: bool)
      modifies this
      ensures nw == if |p| <= old(room) then |p| else old(room)
      ensures data == old(data) + p[..nw] && room == old(room) - nw
      ensures failed ==> nw < |p|
    {
      nw := if |p| <= room then |p| else room;
      data, room := data + p[..nw], room - nw;
      failed := *;
      if nw == |p| {
        failed := false;
      }
    }
  }

  /** The muxing writer: prefix is the frame header, its size bytes rewritten by every Write. */
  class StdWriter {
    const writer: Sink
    const kind: StdType
    var prefix: seq<Byte>

    ghost predicate Valid()
      reads this
    {
      |prefix| == PREFIX_LEN && prefix[..SIZE_INDEX] == [kind.Code(), 0, 0, 0]
    }

    constructor (w: Sink, t: StdType)
      ensures Valid() && writer == w && kind == t
    {
      writer, kind, prefix := w, t, [t.Code(), 0, 0, 0, 0, 0, 0, 0];
    }

    /** All or part of one frame goes down the stream; n counts payload bytes, less than none when the header was
        cut. */
    method Write(buf: seq<Byte>) returns (n: int, failed: bool)
      requires Valid()
      modifies this, writer
      ensures Valid()
      ensures 0 <= n + PREFIX_LEN <= PREFIX_LEN + |buf|
      ensures writer.data == old(writer.data) + Frame(kind, buf)[..n + PREFIX_LEN]
      ensures PREFIX_LEN + |buf| <= old(writer.room) ==> n == |buf| && !failed
    {
      prefix := prefix[..SIZE_INDEX] + PutUint32(|buf| % TWO_32);
      var whole := prefix + buf;
      assert whole == Frame(kind, buf);
      n, failed := writer.Write(whole);
      n := n - PREFIX_LEN;
    }
  }

  // ---- taking the stream apart ----

  /** More bytes after a complete frame do not change it. */
  lemma FrameInPrefix(s: seq<Byte>, t: seq<Byte>)
    requires |s| >= PREFIX_LEN && s <= t
    ensures FrameEnd(s) == FrameEnd(t) && s[0] == t[0]
  {
    assert s[SIZE_INDEX..PREFIX_LEN] == t[SIZE_INDEX..PREFIX_LEN];
  }

  // A stream that ends, goes bad or overflows its writer before the first frame is out.
  lemma DemuxStops(s: seq<Byte>, outRoom: nat, errRoom: nat)
    ensures |s| < PREFIX_LEN ==> Demux(s, outRoom, errRoom) == Copied([], [], 0, Done)
    ensures |s| >= PREFIX_LEN && s[0] > 2 ==> Demux(s, outRoom, errRoom) == Copied([], [], 0, BadHeader)
    ensures |s| >= PREFIX_LEN && s[0] <= 2 && |s| < FrameEnd(s) ==>
      Demux(s, outRoom, errRoom) == Copied([], [], 0, Done)
  {}

  function Room(s: seq<Byte>, outRoom: nat, errRoom: nat): nat
    requires s != []
  {
    if s[0] == 2 then errRoom else outRoom
  }

  lemma RoomIs(s: seq<Byte>, outRoom: nat, errRoom: nat)
    requires s != []
    ensures Room(s, outRoom, errRoom) == if s[0] == 2 then errRoom else outRoom
  {}

  lemma DemuxFrame(s: seq<Byte>, outRoom: nat, errRoom: nat, payload: seq<Byte>)
    requires |s| >= PREFIX_LEN && s[0] <= 2 && FrameEnd(s) <= |s| && payload == s[PREFIX_LEN..FrameEnd(s)]
    ensures Demux(s, outRoom, errRoom) ==
      if |payload| > Room(s, outRoom, errRoom) then
        Copied([], [], 0, WriteFailed).After(s[0] == 2, payload[..Room(s, outRoom, errRoom)])
      else
        Demux(s[FrameEnd(s)..], if s[0] == 2 then outRoom else outRoom - |payload|,
              if s[0] == 2 then errRoom - |payload| else errRoom).After(s[0] == 2, payload)
  {}

  /** A copy that began with out0 and err0 written and had d to deliver ended with out and err written. A stream
      that fails is copied no further; the number of bytes is 0 on an error. */
  ghost predicate Ended(d: Copied, out0: seq<Byte>, out: seq<Byte>, err0: seq<Byte>, err: seq<Byte>, written: nat,
                        status: Status, fails: bool)
  {
    if fails then status != Done && written == 0 && out <= out0 + d.out && err <= err0 + d.err
    else
      && status == d.status && written == (if status.Done? then d.written else 0)
      && out == out0 + d.out && err == err0 + d.err
  }

  /** StdCopy: whatever the reads deliver, a stream that ends in EOF is copied as Demux says. */
  method StdCopy(dstout: Sink, dsterr: Sink, src: Source) returns (written: nat, status: Status)
    requires dstout != dsterr
    modifies dstout, dsterr, src
    ensures Ended(Demux(old(src.rest), old(dstout.room), old(dsterr.room)),
                  old(dstout.data), dstout.data, old(dsterr.data), dsterr.data, written, status, src.fails)
  {
    hide Demux, Rest, Ended;
    var buf := new Byte[BUF_LEN](_ => 0);
    var nr: nat := 0;
    written := 0;
    ghost var d := Demux(src.rest, dstout.room, dsterr.room);
    ghost var out0, err0 := dstout.data, dsterr.data;
    RestStart(d, out0, err0);
    assert buf[..nr] + src.rest == src.rest;
    while true
      invariant fresh(buf) && buf.Length >= BUF_LEN && nr <= buf.Length
      invariant Rest(d, out0, dstout.data, err0, dsterr.data, written, Demux(buf[..nr] + src.rest, dstout.room,
        dsterr.room))
      decreases nr + |src.rest|
    {
      var stop;
      buf, nr, written, stop := CopyFrame(dstout, dsterr, src, buf, nr, written, d, out0, err0);
      if stop.Some? {
        return written, stop.value;
      }
    }
  }

  /** One turn of the loop: the next frame out, or the end. */
  method CopyFrame(dstout: Sink, dsterr: Sink, src: Source, buf0: array<Byte>, nr0: nat, written0: nat,
                   ghost d: Copied, ghost out0: seq<Byte>, ghost err0: seq<Byte>)
    returns (buf: array<Byte>, nr: nat, written: nat, stop: Option<Status>)
    requires dstout != dsterr && nr0 <= buf0.Length && buf0.Length >= BUF_LEN
    requires Rest(d, out0, dstout.data, err0, dsterr.data, written0, Demux(buf0[..nr0] + src.rest, dstout.room,
      dsterr.room))
    modifies dstout, dsterr, src, buf0
    ensures (buf == buf0 || fresh(buf)) && buf.Length >= BUF_LEN && nr <= buf.Length
    ensures stop.None? ==>
      && nr + |src.rest| < nr0 + |old(src.rest)|
      && Rest(d, out0, dstout.data, err0, dsterr.data, written, Demux(buf[..nr] + src.rest, dstout.room, dsterr.room))
    ensures stop.Some? ==> Ended(d, out0, dstout.data, err0, dsterr.data, written, stop.value, src.fails)
  {
    hide Demux, Uint32, Room, FrameEnd, Rest, Ended;
    ghost var pending := buf0[..nr0] + src.rest;
    ghost var rest := Demux(pending, dstout.room, dsterr.room);
    DemuxStops(pending, dstout.room, dsterr.room);
    written := written0;
    buf, nr, stop := FetchFrame(src, buf0, nr0);
    if nr >= PREFIX_LEN {
      FrameInPrefix(buf[..nr], pending);
    }
    if stop.Some? {
      EndsHere(d, out0, dstout.data, err0, dsterr.data, written0, rest, stop.value, src.fails);
      written := if stop.value.Done? then written0 else 0;
      return;
    }
    var frameEnd := FrameEnd(buf[..nr]);
    var payload := buf[PREFIX_LEN..frameEnd];
    SliceInside(buf, nr, src.rest, PREFIX_LEN, frameEnd);
    var ok;
    written, ok := WriteFrame(dstout, dsterr, buf[0] == 2, payload, written0, pending, d, out0, err0, src.fails);
    if !ok {
      stop := Some(WriteFailed);
      return;
    }
    MoveToFront(buf, frameEnd, nr);
    nr := nr - frameEnd;
    assert buf[..nr] + src.rest == pending[frameEnd..];
  }

  lemma SliceInside(buf: array<Byte>, nr: nat, tail: seq<Byte>, lo: nat, hi: nat)
    requires lo <= hi <= nr <= buf.Length
    ensures (buf[..nr] + tail)[lo..hi] == buf[lo..hi]
  {}

  // The payload of the first pending frame goes to its writer.
  method WriteFrame(dstout: Sink, dsterr: Sink, toErr: bool, payload: seq<Byte>, written0: nat,
                    ghost pending: seq<Byte>, ghost d: Copied, ghost out0: seq<Byte>, ghost err0: seq<Byte>,
                    ghost fails: bool)
    returns (written: nat, ok: bool)
    requires dstout != dsterr && |pending| >= PREFIX_LEN && pending[0] <= 2 && toErr == (pending[0] == 2)
    requires FrameEnd(pending) <= |pending| && payload == pending[PREFIX_LEN..FrameEnd(pending)]
    requires Rest(d, out0, dstout.data, err0, dsterr.data, written0, Demux(pending, dstout.room, dsterr.room))
    modifies dstout, dsterr
    ensures ok ==> Rest(d, out0, dstout.data, err0, dsterr.data, written,
                        Demux(pending[FrameEnd(pending)..], dstout.room, dsterr.room))
    ensures !ok ==> Ended(d, out0, dstout.data, err0, dsterr.data, written, WriteFailed, fails)
  {
    hide Demux, Uint32, Room, FrameEnd, Rest;
    DemuxFrame(pending, dstout.room, dsterr.room, payload);
    RoomIs(pending, dstout.room, dsterr.room);
    ghost var out1, err1 := dstout.data, dsterr.data;
    var out := if toErr then dsterr else dstout;
    var nw, failed := out.Write(payload);
    ok := !failed && nw == |payload|;
    if ok {
      assert payload[..nw] == payload;
      written := written0 + nw;
      RestDeliver(d, out0, out1, err0, err1, written0,
                  Demux(pending[FrameEnd(pending)..], dstout.room, dsterr.room), toErr, payload);
    } else {
      ghost var last := Copied([], [], 0, WriteFailed);
      RestDeliver(d, out0, out1, err0, err1, written0, last, toErr, payload[..nw]);
      RestEnd(d, out0, dstout.data, err0, dsterr.data, written0 + nw, last);
      written := 0;
    }
  }

  /** The reads of one turn: a complete frame in the buffer, or the reason there is none. The buffer grows to one
      byte more than the frame needs. */
  method FetchFrame(src: Source, buf0: array<Byte>, nr0: nat) returns (buf: array<Byte>, nr: nat, stop: Option<Status>)
    requires nr0 <= buf0.Length && buf0.Length >= BUF_LEN
    modifies src, buf0
    ensures (buf == buf0 || fresh(buf)) && buf.Length >= BUF_LEN && nr <= buf.Length
    ensures buf[..nr] + src.rest == old(buf0[..nr0] + src.rest)
    ensures match stop
      case None => nr >= PREFIX_LEN && buf[0] <= 2 && FrameEnd(buf[..nr]) <= nr
      case Some(Done) => !src.fails && src.rest == [] && (nr < PREFIX_LEN || (buf[0] <= 2 && nr < FrameEnd(buf[..nr])))
      case Some(BadHeader) => nr >= PREFIX_LEN && buf[0] > 2
      case Some(why) => why == ReadFailed && src.fails
  {
    hide Uint32;
    var ended;
    buf := buf0;
    nr, ended := FillTo(src, buf, nr0, PREFIX_LEN);
    if nr < PREFIX_LEN || (ended && src.fails) {
      stop := Some(if src.fails then ReadFailed else Done);
      return;
    }
    if buf[0] > 2 {
      stop := Some(BadHeader);
      return;
    }
    ghost var header := buf[..nr];
    var frameSize := Uint32(buf[SIZE_INDEX..SIZE_INDEX + 4]);
    assert buf[SIZE_INDEX..SIZE_INDEX + 4] == header[SIZE_INDEX..PREFIX_LEN];
    if frameSize + PREFIX_LEN > buf.Length {
      buf := Extend(buf, frameSize + PREFIX_LEN - buf.Length + 1);
      assert buf[..nr] == header;
    }
    nr, ended := FillTo(src, buf, nr, frameSize + PREFIX_LEN);
    FrameInPrefix(header, buf[..nr]);
    if nr < frameSize + PREFIX_LEN || (ended && src.fails) {
      stop := Some(if src.fails then ReadFailed else Done);
      return;
    }
    stop := None;
  }

  /** What is still to come makes up the difference between d and what has been delivered. */
  ghost predicate Rest(d: Copied, out0: seq<Byte>, out: seq<Byte>, err0: seq<Byte>, err: seq<Byte>, written: nat,
                       r: Copied) {
    && out0 + d.out == out + r.out && err0 + d.err == err + r.err
    && d.written == written + r.written && d.status == r.status
  }

  lemma RestDeliver(d: Copied, out0: seq<Byte>, out: seq<Byte>, err0: seq<Byte>, err: seq<Byte>, written: nat,
                    r: Copied,
                    toErr: bool, payload: seq<Byte>)
    requires Rest(d, out0, out, err0, err, written, r.After(toErr, payload))
    ensures Rest(d, out0, if toErr then out else out + payload, err0, if toErr then err + payload else err,
                 written + |payload|, r)
  {}

  lemma RestStart(d: Copied, out0: seq<Byte>, err0: seq<Byte>)
    ensures Rest(d, out0, out0, err0, err0, 0, d)
  {}

  lemma RestEnd(d: Copied, out0: seq<Byte>, out: seq<Byte>, err0: seq<Byte>, err: seq<Byte>, written: nat, r: Copied)
    requires Rest(d, out0, out, err0, err, written, r)
    ensures out <= out0 + d.out && err <= err0 + d.err
    ensures r == Copied([], [], 0, r.status) ==>
      out == out0 + d.out && err == err0 + d.err && d.written == written && d.status == r.status
  {}

  lemma EndsHere(d: Copied, out0: seq<Byte>, out: seq<Byte>, err0: seq<Byte>, err: seq<Byte>, written: nat, r: Copied,
                 status: Status, fails: bool)
    requires Rest(d, out0, out, err0, err, written, r)
    requires if fails then status != Done else r == Copied([], [], 0, status)
    ensures Ended(d, out0, out, err0, err, if status.Done? then written else 0, status, fails)
  {
    RestEnd(d, out0, out, err0, err, written, r);
  }

  // Reads until the buffer holds want bytes or the stream has ended; never into an empty slice.
  method FillTo(src: Source, buf: array<Byte>, nr0: nat, want: nat) returns (nr: nat, ended: bool)
    requires nr0 <= buf.Length && want <= buf.Length
    modifies src, buf
    ensures nr0 <= nr <= buf.Length && buf[..nr] + src.rest == old(buf[..nr0] + src.rest)
    ensures nr >= want || (ended && src.rest == [])
    ensures buf[..nr0] == old(buf[..nr0])
  {
    nr, ended := nr0, false;
    while nr < want
      invariant nr0 <= nr <= buf.Length && buf[..nr] + src.rest == old(buf[..nr0] + src.rest)
      invariant buf[..nr0] == old(buf[..nr0])
      decreases |src.rest| + src.stalls
    {
      var nr2;
      ghost var was, rest := buf[..nr], src.rest;
      nr2, ended := src.Read(buf, nr);
      assert buf[..nr + nr2] == was + rest[..nr2];
      assert rest == rest[..nr2] + src.rest;
      nr := nr + nr2;
      if ended {
        break;
      }
    }
  }

  // copy(buf, buf[from:])
  method MoveToFront(buf: array<Byte>, from: nat, to: nat)
    requires from <= to <= buf.Length
    modifies buf
    ensures buf[..to - from] == old(buf[from..to])
  {
    forall k | 0 <= k < buf.Length - from {
      buf[k] := buf[k + from];
    }
  }

  // append(buf, make([]byte, extra)...)
  method Extend(buf: array<Byte>, extra: nat) returns (r: array<Byte>)
    ensures fresh(r) && r.Length == buf.Length + extra && r[..buf.Length] == buf[..]
  {
    r := new Byte[buf.Length + extra](_ => 0);
    forall k | 0 <= k < buf.Length {
      r[k] := buf[k];
    }
  }

  // ---- the round trip ----

  datatype Write = Write(kind: StdType, payload: seq<Byte>)

  function Mux(ws: seq<Write>): seq<Byte> {
    if ws == [] then [] else Frame(ws[0].kind, ws[0].payload) + Mux(ws[1..])
  }

  /** Everything written to one side. */
  function Side(ws: seq<Write>, toErr: bool): seq<Byte> {
    if ws == [] then []
    else (if ws[0].kind.Stderr? == toErr then ws[0].payload else []) + Side(ws[1..], toErr)
  }

  /** How many of the writes have their whole frame in the first k bytes. */
  function Complete(ws: seq<Write>, k: nat): (c: nat)
    ensures c <= |ws|
  {
    if ws == [] || k < PREFIX_LEN + |ws[0].payload| then 0
    else 1 + Complete(ws[1..], k - PREFIX_LEN - |ws[0].payload|)
  }

  lemma FrameParts(w: Write, tail: seq<Byte>)
    requires |w.payload| < TWO_32
    ensures var s := Frame(w.kind, w.payload) + tail;
      && |s| >= PREFIX_LEN && s[0] == w.kind.Code() && FrameEnd(s) == PREFIX_LEN + |w.payload|
      && s[PREFIX_LEN..FrameEnd(s)] == w.payload && s[FrameEnd(s)..] == tail
  {
    hide Uint32, PutUint32;
    var s := Frame(w.kind, w.payload) + tail;
    var size := PutUint32(|w.payload|);
    SizeLength(|w.payload|);
    assert s == [w.kind.Code(), 0, 0, 0] + size + (w.payload + tail);
    assert s[SIZE_INDEX..PREFIX_LEN] == size;
    Uint32RoundTrip(|w.payload|);
  }

  lemma SizeLength(n: nat)
    requires n < TWO_32
    ensures |PutUint32(n)| == 4
  {}

  lemma FrameLength(w: Write)
    ensures |Frame(w.kind, w.payload)| == PREFIX_LEN + |w.payload|
  {}

  // The header of a cut frame, if it is there at all, is that of the whole frame.
  lemma CutFrame(w: Write, tail: seq<Byte>, k: nat)
    requires |w.payload| < TWO_32 && k < PREFIX_LEN + |w.payload|
    ensures k <= |Frame(w.kind, w.payload) + tail|
    ensures forall r, e :: Demux((Frame(w.kind, w.payload) + tail)[..k], r, e) == Copied([], [], 0, Done)
  {
    hide Uint32, PutUint32, Demux;
    var s := Frame(w.kind, w.payload) + tail;
    FrameParts(w, tail);
    FrameLength(w);
    if k >= PREFIX_LEN {
      FrameInPrefix(s[..k], s);
    }
    forall r, e
      ensures Demux(s[..k], r, e) == Copied([], [], 0, Done)
    {
      DemuxStops(s[..k], r, e);
    }
  }

  /** Any cut of a muxed stream delivers to each side exactly the payloads of the frames that are whole. */
  lemma {:induction false} MuxDemux(ws: seq<Write>, k: nat, outRoom: nat, errRoom: nat)
    requires forall w :: w in ws ==> |w.payload| < TWO_32
    requires k <= |Mux(ws)|
    requires |Side(ws, false)| <= outRoom && |Side(ws, true)| <= errRoom
    ensures var whole := ws[..Complete(ws, k)];
      var out, err := Side(whole, false), Side(whole, true);
      Demux(Mux(ws)[..k], outRoom, errRoom) == Copied(out, err, |out| + |err|, Done)
  {
    hide Demux, Frame, FrameEnd;
    if ws == [] {
      DemuxStops([], outRoom, errRoom);
      assert Mux(ws)[..k] == [];
    } else {
      var w, tail := ws[0], Mux(ws[1..]);
      FrameParts(w, tail);
      if k < PREFIX_LEN + |w.payload| {
        CutFrame(w, tail, k);
      } else {
        var end := PREFIX_LEN + |w.payload|;
        var s := Mux(ws)[..k];
        FrameParts(w, tail[..k - end]);
        assert s == Frame(w.kind, w.payload) + tail[..k - end] by {
          assert Mux(ws)[..end] == Frame(w.kind, w.payload) by {
            FrameLength(w);
          }
        }
        DemuxFrame(s, outRoom, errRoom, w.payload);
        var toErr := w.kind.Stderr?;
        MuxDemux(ws[1..], k - end, if toErr then outRoom else outRoom - |w.payload|,
                 if toErr then errRoom - |w.payload| else errRoom);
        assert ws[..Complete(ws, k)] == [w] + ws[1..][..Complete(ws[1..], k - end)];
      }
    }
  }
}
