/** The buffered reader (bufReader in docker/utils/utils.go): one goroutine drains the underlying reader into a
    buffer, one consumer reads from it, and a condition variable on the mutex wakes the consumer. The two interleave
    at every step.
  */
module BufReaders {
  import opened Wrappers

  /** What the underlying reader returned: a chunk, or an error (bytes that come with an error are dropped). */
  datatype Outcome = Chunk(bytes: seq<Byte>) | Failure(error: nat)

  datatype Drain =
    | Reading                     // in the underlying Read
    | WantsLock(got: Outcome)
    | Locked(got: Outcome)        // holds the mutex, has not stored yet
    | Stored(got: Outcome)        // holds the mutex, has not signalled yet
    | Signalled(got: Outcome)     // holds the mutex
    | Stopped

  /** size is the length of the slice given to Read. */
  datatype Consumer =
    | Outside
    | Entering(size: nat)
    | Looking(size: nat)          // holds the mutex, at the top of the loop
    | BeforeWait(size: nat)       // holds the mutex, found nothing
    | Asleep(size: nat)           // in Wait, not signalled
    | Woken(size: nat)            // in Wait, signalled

  datatype State = State(
    buf: seq<Byte>, err: Option<nat>, drain: Drain, consumer: Consumer,
    drained: seq<Byte>,           // everything stored so far
    delivered: seq<Byte>)         // everything Read has returned so far

  const START := State([], None, Reading, Outside, [], [])

  predicate DrainHolds(s: State) {
    s.drain.Locked? || s.drain.Stored? || s.drain.Signalled?
  }

  predicate ConsumerHolds(s: State) {
    s.consumer.Looking? || s.consumer.BeforeWait?
  }

  predicate LockFree(s: State) {
    !DrainHolds(s) && !ConsumerHolds(s)
  }

  // ---- the steps of drain ----

  predicate DrainStep(s: State, s': State) {
    match s.drain
    case Reading => s'.drain.WantsLock? && s' == s.(drain := s'.drain)
    case WantsLock(got) => LockFree(s) && s' == s.(drain := Locked(got))
    case Locked(Chunk(bytes)) =>
      s' == s.(buf := s.buf + bytes, drained := s.drained + bytes, drain := Stored(Chunk(bytes)))
    case Locked(Failure(e)) => s' == s.(err := Some(e), drain := Stored(Failure(e)))
    case Stored(got) =>
      s' == s.(drain := Signalled(got), consumer := if s.consumer.Asleep? then Woken(s.consumer.size) else s.consumer)
    case Signalled(got) => s' == s.(drain := if got.Failure? then Stopped else Reading)
    case Stopped => false
  }

  // ---- the steps of Read ----

  function Taken(s: State, size: nat): nat {
    if size <= |s.buf| then size else |s.buf|
  }

  /** The loop body of Read: data, the error, or nothing yet. */
  predicate Looks(s: State, size: nat, s': State) {
    var n := Taken(s, size);
    if n > 0 then s' == s.(buf := s.buf[n..], delivered := s.delivered + s.buf[..n], consumer := Outside)
    else if s.err.Some? then s' == s.(consumer := Outside)
    else s' == s.(consumer := BeforeWait(size))
  }

  predicate ConsumerStep(s: State, s': State) {
    match s.consumer
    case Outside => s'.consumer.Entering? && s' == s.(consumer := s'.consumer)
    case Entering(size) => LockFree(s) && s' == s.(consumer := Looking(size))
    case Looking(size) => Looks(s, size, s')
    case BeforeWait(size) => s' == s.(consumer := Asleep(size))
    case Asleep(_) => false
    case Woken(size) => LockFree(s) && s' == s.(consumer := Looking(size))
  }

  predicate Step(s: State, s': State) {
    DrainStep(s, s') || ConsumerStep(s, s')
  }

  /** The step returns the error from Read. */
  predicate ReturnsError(s: State, s': State) {
    s.consumer.Looking? && ConsumerStep(s, s') && Taken(s, s.consumer.size) == 0 && s.err.Some?
  }

  ghost predicate IsRun(run: seq<State>) {
    run != [] && run[0] == START && forall k :: 0 <= k < |run| - 1 ==> Step(run[k], run[k + 1])
  }

  // ---- the invariant ----

  /** The consumer has asked for at least a byte. */
  predicate Wants(c: Consumer) {
    !c.Outside? && c.size > 0
  }

  predicate Empty(s: State) {
    s.buf == [] && s.err.None?
  }

  predicate Inv(s: State) {
    && !(DrainHolds(s) && ConsumerHolds(s))
    && s.delivered + s.buf == s.drained
    && (s.err.Some? <==> s.drain.Stopped? || ((s.drain.Stored? || s.drain.Signalled?) && s.drain.got.Failure?))
    && (s.consumer.BeforeWait? && Wants(s.consumer) ==> Empty(s))
    && (s.consumer.Asleep? && Wants(s.consumer) ==> Empty(s) || s.drain.Stored?)
  }

  lemma InvKept(s: State, s': State)
    requires Inv(s) && Step(s, s')
    ensures Inv(s')
  {
    if ConsumerStep(s, s') && s.consumer.Looking? {
      var n := Taken(s, s.consumer.size);
      assert s.delivered + s.buf[..n] + s.buf[n..] == s.delivered + s.buf;
    } else if DrainStep(s, s') && s.drain.Locked? && s.drain.got.Chunk? {
      assert s.delivered + (s.buf + s.drain.got.bytes) == s.delivered + s.buf + s.drain.got.bytes;
    }
  }

  lemma {:induction false} InvAlways(run: seq<State>, k: nat)
    requires IsRun(run) && k < |run|
    ensures Inv(run[k])
  {
    hide Step, Inv;
    if k > 0 {
      InvAlways(run, k - 1);
      assert Step(run[k - 1], run[k - 1 + 1]);
      InvKept(run[k - 1], run[k]);
    } else {
      StartInv();
    }
  }

  lemma StartInv()
    ensures Inv(START)
  {}

  /** First in, first out: in every interleaving what was delivered, followed by what is buffered, is what was
      drained without error. */
  lemma Fifo(run: seq<State>, k: nat)
    requires IsRun(run) && k < |run|
    ensures run[k].delivered + run[k].buf == run[k].drained
  {
    InvAlways(run, k);
  }

  /** A Read of at least one byte returns the error only when everything drained has been delivered. */
  lemma ErrorComesLast(run: seq<State>, k: nat)
    requires IsRun(run) && k + 1 < |run| && ReturnsError(run[k], run[k + 1]) && Wants(run[k].consumer)
    ensures run[k].buf == [] && run[k].delivered == run[k].drained
  {
    InvAlways(run, k);
  }

  /** A reader that wants a byte is never left asleep while data or an error is there: the very next step of drain
      wakes it. And drain has not stopped, so a sleeping reader is not asleep for ever. */
  lemma NeverLeftAsleep(run: seq<State>, k: nat, next: State)
    requires IsRun(run) && k < |run| && run[k].consumer.Asleep? && Wants(run[k].consumer)
    ensures !run[k].drain.Stopped?
    ensures !Empty(run[k]) ==> run[k].drain.Stored?
    ensures !Empty(run[k]) && Step(run[k], next) ==> next.consumer.Woken?
  {
    InvAlways(run, k);
  }

  /** Once the error is in, every later Read of at least one byte that gets the mutex returns at once. */
  lemma NoWaitAfterError(run: seq<State>, k: nat, next: State)
    requires IsRun(run) && k < |run| && run[k].err.Some? && run[k].consumer.Looking?
    requires ConsumerStep(run[k], next)
    ensures next.consumer.Outside?
  {}

  /** A Read that finds data delivers the next bytes, as many as are there and fit. */
  lemma ReadDelivers(run: seq<State>, k: nat, next: State)
    requires IsRun(run) && k < |run| && run[k].consumer.Looking? && ConsumerStep(run[k], next)
    requires run[k].buf != [] && run[k].consumer.size > 0
    ensures var n := if run[k].consumer.size < |run[k].buf| then run[k].consumer.size else |run[k].buf|;
      && next.consumer.Outside? && |next.delivered| == |run[k].delivered| + n
      && next.delivered + next.buf == run[k].drained
  {
    Fifo(run, k);
    var n := Taken(run[k], run[k].consumer.size);
    assert run[k].buf[..n] + run[k].buf[n..] == run[k].buf;
  }

  /** A chunk is stored, and the consumer comes with an empty slice. */
  function EmptyRead(b: Byte): seq<State> {
    var chunk := Chunk([b]);
    var stored := START.(buf := [b], drained := [b]);
    [START, START.(drain := WantsLock(chunk)), START.(drain := Locked(chunk)), stored.(drain := Stored(chunk)),
     stored.(drain := Signalled(chunk)), stored, stored.(consumer := Entering(0)), stored.(consumer := Looking(0)),
     stored.(consumer := BeforeWait(0)), stored.(consumer := Asleep(0))]
  }

  /** A chunk is stored, then the error, and only then the consumer comes with an empty slice. */
  function LateEmptyRead(b: Byte, e: nat): seq<State> {
    var last := Failure(e);
    var stored := EmptyRead(b)[5];
    var failed := stored.(err := Some(e), drain := Stopped);
    EmptyRead(b)[..6] +
    [stored.(drain := WantsLock(last)), stored.(drain := Locked(last)), failed.(drain := Stored(last)),
     failed.(drain := Signalled(last)), failed, failed.(consumer := Entering(0)), failed.(consumer := Looking(0)),
       failed]
  }

  /** With an empty slice both fail: Read goes to sleep with data in the buffer and no signal on its way, and once
      the error is in it returns that before the data. */
  lemma EmptySliceSleepsOnData(b: Byte, e: nat)
    ensures IsRun(EmptyRead(b))
    ensures var s := EmptyRead(b)[9];
      s.consumer == Asleep(0) && s.buf == [b] && !s.drain.Stored?
    ensures IsRun(LateEmptyRead(b, e))
    ensures var run := LateEmptyRead(b, e);
      |run| == 14 && ReturnsError(run[12], run[13]) && run[12].buf == [b]
  {
    var run, late := EmptyRead(b), LateEmptyRead(b, e);
    assert START.buf + [b] == [b] && START.drained + [b] == [b];
    forall k | 0 <= k < |run| - 1
      ensures Step(run[k], run[k + 1])
    {
      assert k == 0 || k == 1 || k == 2 || k == 3 || k == 4 || k == 5 || k == 6 || k == 7 || k == 8;
    }
    forall k | 0 <= k < |late| - 1
      ensures Step(late[k], late[k + 1])
    {
      assert k < 5 ==> late[k] == run[k] && late[k + 1] == run[k + 1];
      assert k < 5 || k == 5 || k == 6 || k == 7 || k == 8 || k == 9 || k == 10 || k == 11 || k == 12;
    }
  }
}
