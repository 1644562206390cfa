/** The locks of a DeviceSet (devmapper/deviceset.go): the global lock, one lock per device and the lock of the Devices
    map, as the operations of a running set take and drop them. Threads interleave at every action.
  */
module DeviceLocks {
  import opened Wrappers

  // ---- programs ----

  datatype Action =
    | LockTable | UnlockTable        // devicesLock
    | LockInfo(d: nat) | UnlockInfo  // the lock of one device
    | LockGlobal | UnlockGlobal      // the lock of the set
    | DmCall(about: Option<nat>)     // a call into libdevmapper about a device, or about the pool
    | Use(d: nat)                    // the mount count and mount path of a device are read or written
    | Sleep(d: nat)                  // the sleep in a wait for a device

  /** Either stands for a branch on what the calls return, Repeat for a loop that runs at most n times. */
  datatype Prog =
    | Nop
    | Do(a: Action)
    | Seq(p: Prog, q: Prog)
    | Either(p: Prog, q: Prog)
    | Repeat(n: nat, p: Prog)

  function Block(ps: seq<Prog>): Prog {
    if ps == [] then Nop else Seq(ps[0], Block(ps[1..]))
  }

  // What follows an early return of an error may not happen.
  function Unless(p: Prog): Prog {
    Either(Nop, p)
  }

  // ---- the operations ----

  const TRIES: nat := 1000

  function Lookup(): Prog {
    Block([Do(LockTable), Do(UnlockTable)])
  }

  function Call(d: nat): Prog {
    Do(DmCall(Some(d)))
  }

  function PoolCall(): Prog {
    Do(DmCall(None))
  }

  // The wait that drops the global lock while the device lock is held.
  function Pause(d: nat): Prog {
    Block([Do(UnlockGlobal), Do(Sleep(d)), Do(LockGlobal)])
  }

  function Turn(d: nat): Prog {
    Block([Call(d), Pause(d)])
  }

  // waitRemove and waitClose
  function WaitFor(d: nat): Prog {
    Block([Repeat(TRIES, Turn(d)), Unless(Call(d))])
  }

  function RemoveAndWait(d: nat): Prog {
    Block([Repeat(TRIES, Turn(d)), Unless(Block([Call(d), Unless(WaitFor(d))]))])
  }

  function Activate(d: nat): Prog {
    Block([Call(d), Unless(Call(d))])
  }

  function Deactivate(d: nat): Prog {
    Block([WaitFor(d), Call(d), Unless(RemoveAndWait(d))])
  }

  function WithLocks(d: nat, body: Prog): Prog {
    Block([Do(LockInfo(d)), Do(LockGlobal), body, Do(UnlockGlobal), Do(UnlockInfo)])
  }

  function WithDevice(d: nat, body: Prog): Prog {
    Block([Lookup(), Unless(WithLocks(d, body))])
  }

  function WithGlobal(body: Prog): Prog {
    Block([Do(LockGlobal), body, Do(UnlockGlobal)])
  }

  // createSnapDevice: the base may have to be suspended, which may fail, and taken ids are tried again.
  function CreateSnap(base: nat, taken: nat): Prog {
    Block([Call(base), Unless(Call(base)), Unless(CreateSnapId(base, taken))])
  }

  function CreateSnapId(base: nat, taken: nat): Prog {
    Block([Repeat(taken, Call(base)), Call(base), Unless(Call(base))])
  }

  // registerDevice, and the deletion of the device when it fails
  function Register(): Prog {
    Block([Lookup(), Unless(PoolCall()), Unless(Undo())])
  }

  function Undo(): Prog {
    Block([Lookup(), PoolCall()])
  }

  function Add(base: nat, taken: nat): Prog {
    Block([Lookup(), Unless(Block([CreateSnap(base, taken), Unless(Register())]))])
  }

  function Delete(d: nat): Prog {
    Block([Unless(Activate(d)), Call(d), Unless(RemoveAndWait(d)), Unless(Block([Call(d), Unless(Forget())]))])
  }

  // The device leaves the map, and comes back when its metadata stays.
  function Forget(): Prog {
    Block([Lookup(), Unless(Lookup())])
  }

  function Mount(d: nat): Prog {
    Block([Do(Use(d)), Unless(Block([Activate(d), Unless(Do(Use(d)))]))])
  }

  function Unmount(d: nat): Prog {
    Block([Do(Use(d)), Unless(Block([Deactivate(d), Unless(Do(Use(d)))]))])
  }

  function ShutdownOne(d: nat): Prog {
    Block([Do(LockInfo(d)), Do(Use(d)), Unless(WithGlobal(Deactivate(d))), Do(UnlockInfo)])
  }

  function ShutdownAll(devs: seq<nat>): Prog {
    if devs == [] then Nop else Seq(ShutdownOne(devs[0]), ShutdownAll(devs[1..]))
  }

  datatype Op =
    | AddDevice(base: nat, taken: nat)
    | DeleteDevice(d: nat)
    | MountDevice(d: nat)
    | UnmountDevice(d: nat)
    | HasDevice
    | HasActivatedDevice(d: nat)
    | List
    | GetDeviceStatus(d: nat)
    | PoolStatus
    | Shutdown(devs: seq<nat>, base: nat)

  function Code(op: Op): Prog {
    match op
    case AddDevice(base, taken) => WithDevice(base, Add(base, taken))
    case DeleteDevice(d) => WithDevice(d, Delete(d))
    case MountDevice(d) => WithDevice(d, Mount(d))
    case UnmountDevice(d) => WithDevice(d, Unmount(d))
    case HasDevice => WithGlobal(Lookup())
    case HasActivatedDevice(d) => WithDevice(d, Call(d))
    case List => WithGlobal(Lookup())
    case GetDeviceStatus(d) => WithDevice(d, Block([Activate(d), Unless(Call(d))]))
    case PoolStatus => WithGlobal(PoolCall())
    case Shutdown(devs, base) =>
      Block([Lookup(), ShutdownAll(devs), Lookup(), Unless(WithLocks(base, Deactivate(base))),
             WithGlobal(Block([PoolCall(), Unless(PoolCall())]))])
  }

  // ---- threads and their steps ----

  datatype Held = Held(info: Option<nat>, global: bool, table: bool)

  const NOTHING := Held(None, false, false)

  datatype Thread = Thread(todo: seq<Prog>, held: Held)

  type State = seq<Thread>

  /** Whether no thread holds the lock that a takes. */
  predicate Free(s: State, a: Action) {
    match a
    case LockTable => forall j :: 0 <= j < |s| ==> !s[j].held.table
    case LockInfo(d) => forall j :: 0 <= j < |s| ==> s[j].held.info != Some(d)
    case LockGlobal => forall j :: 0 <= j < |s| ==> !s[j].held.global
    case _ => true
  }

  function After(h: Held, a: Action): Held {
    match a
    case LockTable => h.(table := true)
    case UnlockTable => h.(table := false)
    case LockInfo(d) => h.(info := Some(d))
    case UnlockInfo => h.(info := None)
    case LockGlobal => h.(global := true)
    case UnlockGlobal => h.(global := false)
    case DmCall(_) => h
    case Use(_) => h
    case Sleep(_) => h
  }

  predicate Finished(t: Thread) {
    t.todo == []
  }

  /** Thread t can make a step in s: it is not finished and not waiting for a lock. */
  predicate CanStep(s: State, t: Thread) {
    !Finished(t) && (t.todo[0].Do? ==> Free(s, t.todo[0].a))
  }

  /** t' is t after one step in s. */
  predicate ThreadStep(s: State, t: Thread, t': Thread) {
    CanStep(s, t) &&
    var rest := t.todo[1..];
    match t.todo[0]
    case Nop => t' == t.(todo := rest)
    case Do(a) => t' == Thread(rest, After(t.held, a))
    case Seq(p, q) => t' == t.(todo := [p, q] + rest)
    case Either(p, q) => t' == t.(todo := [p] + rest) || t' == t.(todo := [q] + rest)
    case Repeat(n, p) => t' == t.(todo := rest) || (n > 0 && t' == t.(todo := [p, Repeat(n - 1, p)] + rest))
  }

  predicate Step(s: State, i: nat, s': State) {
    i < |s| && |s'| == |s| && ThreadStep(s, s[i], s'[i]) && s' == s[i := s'[i]]
  }

  /** Every thread runs its operations one after another. */
  function Start(ops: seq<seq<Op>>): State {
    seq(|ops|, i requires 0 <= i < |ops| =>
      Thread(seq(|ops[i]|, k requires 0 <= k < |ops[i]| => Code(ops[i][k])), NOTHING))
  }

  ghost predicate IsRun(run: seq<State>) {
    run != [] && forall k :: 0 <= k < |run| - 1 ==> Advances(run[k], run[k + 1])
  }

  ghost predicate Advances(s: State, s': State) {
    exists i :: Step(s, i, s')
  }

  ghost predicate CanGoOn(s: State) {
    exists s' :: Advances(s, s')
  }

  // ---- the discipline ----

  // Device lock, then global lock, then table lock; calls under the global lock; a device only under its own lock.

  function Check(p: Prog, h: Held): Option<Held> {
    match p
    case Nop => Some(h)
    case Do(a) => if Allowed(a, h) then Some(After(h, a)) else None
    case Seq(p, q) => (match Check(p, h) case None => None case Some(m) => Check(q, m))
    case Either(p, q) => if Check(p, h) == Check(q, h) then Check(p, h) else None
    case Repeat(n, p) => if Check(p, h) == Some(h) then Some(h) else None
  }

  predicate Allowed(a: Action, h: Held) {
    match a
    case LockTable => !h.table
    case UnlockTable => h.table
    case LockInfo(d) => h.info.None? && !h.global && !h.table
    case UnlockInfo => h.info.Some? && !h.global && !h.table
    case LockGlobal => !h.global && !h.table
    case UnlockGlobal => h.global && !h.table
    case DmCall(about) => h.global && (about.Some? ==> h.info == about)
    case Use(d) => h.info == Some(d)
    case Sleep(d) => h.info == Some(d) && !h.global && !h.table
  }

  function CheckAll(ps: seq<Prog>, h: Held): Option<Held> {
    if ps == [] then Some(h)
    else match Check(ps[0], h) case None => None case Some(m) => CheckAll(ps[1..], m)
  }

  /** No two threads hold the same lock. */
  ghost predicate Exclusive(s: State) {
    forall i, j :: 0 <= i < j < |s| ==> Apart(s[i].held, s[j].held)
  }

  predicate Apart(g: Held, h: Held) {
    && !(g.table && h.table)
    && !(g.global && h.global)
    && !(g.info.Some? && g.info == h.info)
  }

  ghost predicate Inv(s: State) {
    && Exclusive(s)
    && forall i :: 0 <= i < |s| ==> CheckAll(s[i].todo, s[i].held) == Some(NOTHING)
  }

  // ---- every operation keeps the discipline ----

  lemma {:induction false} CheckBlock(ps: seq<Prog>, h: Held)
    ensures Check(Block(ps), h) == CheckAll(ps, h)
  {
    if ps == [] {
    } else {
      match Check(ps[0], h)
      case None =>
      case Some(m) => CheckBlock(ps[1..], m);
    }
  }

  // A block whose first program checks is as good as the rest of the block after it.
  lemma CheckFirst(p: Prog, ps: seq<Prog>, h: Held, m: Held)
    requires Check(p, h) == Some(m)
    ensures Check(Block([p] + ps), h) == Check(Block(ps), m)
  {
    assert ([p] + ps)[1..] == ps;
  }

  lemma CheckTwo(p: Prog, q: Prog, h: Held)
    ensures Check(Block([p, q]), h) == match Check(p, h) case None => None case Some(m) => Check(q, m)
  {
    CheckBlock([p, q], h);
    assert [p, q][1..] == [q] && [q][1..] == [];
    match Check(p, h)
    case None =>
    case Some(m) => assert CheckAll([q], m) == Check(q, m) by {
      match Check(q, m)
      case None =>
      case Some(k) =>
    }
  }

  lemma CheckThree(p: Prog, q: Prog, r: Prog, h: Held)
    ensures Check(Block([p, q, r]), h) == Check(Seq(p, Block([q, r])), h)
  {
    assert [p, q, r][1..] == [q, r];
  }

  // Programs that run under the global lock, and under the lock of the device they are about, and leave what is held as
  // they found it.
  ghost predicate Neutral(p: Prog, about: Option<nat>) {
    forall h: Held :: h.global && !h.table && (about.Some? ==> h.info == about) ==> Check(p, h) == Some(h)
  }

  lemma NeutralUnless(p: Prog, about: Option<nat>)
    requires Neutral(p, about)
    ensures Neutral(Unless(p), about)
  {}

  lemma NeutralCalls(d: nat)
    ensures Neutral(Call(d), Some(d)) && Neutral(Do(Use(d)), Some(d))
    ensures forall about :: Neutral(PoolCall(), about)
  {}

  lemma {:induction false} NeutralBlock(ps: seq<Prog>, about: Option<nat>)
    requires forall p :: p in ps ==> Neutral(p, about)
    ensures Neutral(Block(ps), about)
  {
    if ps == [] {
    } else {
      assert ps[0] in ps;
      NeutralBlock(ps[1..], about);
    }
  }

  lemma NeutralRepeat(n: nat, p: Prog, about: Option<nat>)
    requires Neutral(p, about)
    ensures Neutral(Repeat(n, p), about)
  {}

  lemma LookupChecks(h: Held)
    requires !h.table
    ensures Check(Lookup(), h) == Some(h)
  {
    CheckTwo(Do(LockTable), Do(UnlockTable), h);
  }

  lemma NeutralLookup(about: Option<nat>)
    ensures Neutral(Lookup(), about)
  {
    forall h: Held | h.global && !h.table
      ensures Check(Lookup(), h) == Some(h)
    {
      LookupChecks(h);
    }
  }

  lemma NeutralPause(d: nat)
    ensures Neutral(Pause(d), Some(d))
  {
    forall h: Held | h.global && !h.table && h.info == Some(d)
      ensures Check(Pause(d), h) == Some(h)
    {
      CheckThree(Do(UnlockGlobal), Do(Sleep(d)), Do(LockGlobal), h);
      CheckTwo(Do(Sleep(d)), Do(LockGlobal), h.(global := false));
    }
  }

  lemma NeutralWaits(d: nat)
    ensures Neutral(WaitFor(d), Some(d)) && Neutral(RemoveAndWait(d), Some(d))
    ensures Neutral(Activate(d), Some(d)) && Neutral(Deactivate(d), Some(d))
  {
    hide Neutral, Block, Unless, Call, Pause;
    var about := Some(d);
    NeutralCalls(d);
    NeutralPause(d);
    NeutralBlock([Call(d), Pause(d)], about);
    NeutralRepeat(TRIES, Turn(d), about);
    NeutralUnless(Call(d), about);
    NeutralBlock([Repeat(TRIES, Turn(d)), Unless(Call(d))], about);
    NeutralUnless(WaitFor(d), about);
    NeutralBlock([Call(d), Unless(WaitFor(d))], about);
    NeutralUnless(Block([Call(d), Unless(WaitFor(d))]), about);
    NeutralBlock([Repeat(TRIES, Turn(d)), Unless(Block([Call(d), Unless(WaitFor(d))]))], about);
    NeutralBlock([Call(d), Unless(Call(d))], about);
    NeutralUnless(RemoveAndWait(d), about);
    NeutralBlock([WaitFor(d), Call(d), Unless(RemoveAndWait(d))], about);
  }

  lemma NeutralAdd(base: nat, taken: nat)
    ensures Neutral(Add(base, taken), Some(base))
  {
    hide Neutral, Block, Unless, Lookup, Call, PoolCall;
    var about := Some(base);
    NeutralCalls(base);
    NeutralLookup(about);
    NeutralUnless(Call(base), about);
    NeutralUnless(PoolCall(), about);
    NeutralRepeat(taken, Call(base), about);
    NeutralBlock([Repeat(taken, Call(base)), Call(base), Unless(Call(base))], about);
    NeutralUnless(CreateSnapId(base, taken), about);
    NeutralBlock([Call(base), Unless(Call(base)), Unless(CreateSnapId(base, taken))], about);
    NeutralBlock([Lookup(), PoolCall()], about);
    NeutralUnless(Undo(), about);
    NeutralBlock([Lookup(), Unless(PoolCall()), Unless(Undo())], about);
    NeutralUnless(Register(), about);
    NeutralBlock([CreateSnap(base, taken), Unless(Register())], about);
    NeutralUnless(Block([CreateSnap(base, taken), Unless(Register())]), about);
    NeutralBlock([Lookup(), Unless(Block([CreateSnap(base, taken), Unless(Register())]))], about);
  }

  lemma NeutralDelete(d: nat)
    ensures Neutral(Delete(d), Some(d))
  {
    hide Neutral, Block, Unless, Lookup, RemoveAndWait, Activate, Call;
    var about := Some(d);
    NeutralCalls(d);
    NeutralLookup(about);
    NeutralWaits(d);
    NeutralUnless(Activate(d), about);
    NeutralUnless(RemoveAndWait(d), about);
    NeutralUnless(Lookup(), about);
    NeutralBlock([Lookup(), Unless(Lookup())], about);
    NeutralUnless(Forget(), about);
    NeutralBlock([Call(d), Unless(Forget())], about);
    NeutralUnless(Block([Call(d), Unless(Forget())]), about);
    NeutralBlock([Unless(Activate(d)), Call(d), Unless(RemoveAndWait(d)), Unless(Block([Call(d), Unless(Forget())]))],
                 about);
  }

  lemma NeutralMounts(d: nat)
    ensures Neutral(Mount(d), Some(d)) && Neutral(Unmount(d), Some(d))
  {
    hide Neutral, Block, Unless, Activate, Deactivate;
    var about := Some(d);
    NeutralCalls(d);
    NeutralWaits(d);
    NeutralUnless(Do(Use(d)), about);
    NeutralBlock([Activate(d), Unless(Do(Use(d)))], about);
    NeutralUnless(Block([Activate(d), Unless(Do(Use(d)))]), about);
    NeutralBlock([Do(Use(d)), Unless(Block([Activate(d), Unless(Do(Use(d)))]))], about);
    NeutralBlock([Deactivate(d), Unless(Do(Use(d)))], about);
    NeutralUnless(Block([Deactivate(d), Unless(Do(Use(d)))]), about);
    NeutralBlock([Do(Use(d)), Unless(Block([Deactivate(d), Unless(Do(Use(d)))]))], about);
  }

  lemma WithGlobalChecks(body: Prog, about: Option<nat>, h: Held)
    requires Neutral(body, about) && !h.global && !h.table && (about.Some? ==> h.info == about)
    ensures Check(WithGlobal(body), h) == Some(h)
  {
    CheckThree(Do(LockGlobal), body, Do(UnlockGlobal), h);
    CheckTwo(body, Do(UnlockGlobal), h.(global := true));
  }

  lemma WithLocksChecks(d: nat, body: Prog)
    requires Neutral(body, Some(d))
    ensures Check(WithLocks(d, body), NOTHING) == Some(NOTHING)
  {
    var ps := [Do(LockGlobal), body, Do(UnlockGlobal), Do(UnlockInfo)];
    assert [Do(LockInfo(d)), Do(LockGlobal), body, Do(UnlockGlobal), Do(UnlockInfo)] == [Do(LockInfo(d))] + ps;
    CheckFirst(Do(LockInfo(d)), ps, NOTHING, After(NOTHING, LockInfo(d)));
    var qs := [body, Do(UnlockGlobal), Do(UnlockInfo)];
    assert ps == [Do(LockGlobal)] + qs;
    var h := Held(Some(d), true, false);
    CheckFirst(Do(LockGlobal), qs, Held(Some(d), false, false), h);
    CheckThree(body, Do(UnlockGlobal), Do(UnlockInfo), h);
    CheckTwo(Do(UnlockGlobal), Do(UnlockInfo), h);
  }

  lemma WithDeviceChecks(d: nat, body: Prog)
    requires Neutral(body, Some(d))
    ensures Check(WithDevice(d, body), NOTHING) == Some(NOTHING)
  {
    hide Neutral, WithLocks;
    LookupChecks(NOTHING);
    WithLocksChecks(d, body);
    CheckTwo(Lookup(), Unless(WithLocks(d, body)), NOTHING);
  }

  lemma ShutdownOneChecks(d: nat)
    ensures Check(ShutdownOne(d), NOTHING) == Some(NOTHING)
  {
    hide Deactivate, Neutral, WithGlobal;
    NeutralWaits(d);
    var h := Held(Some(d), false, false);
    var one := Unless(WithGlobal(Deactivate(d)));
    WithGlobalChecks(Deactivate(d), Some(d), h);
    assert [Do(LockInfo(d)), Do(Use(d)), one, Do(UnlockInfo)] == [Do(LockInfo(d))] + [Do(Use(d)), one, Do(UnlockInfo)];
    CheckFirst(Do(LockInfo(d)), [Do(Use(d)), one, Do(UnlockInfo)], NOTHING, h);
    CheckThree(Do(Use(d)), one, Do(UnlockInfo), h);
    CheckTwo(one, Do(UnlockInfo), h);
  }

  lemma {:induction false} ShutdownAllChecks(devs: seq<nat>)
    ensures Check(ShutdownAll(devs), NOTHING) == Some(NOTHING)
  {
    hide ShutdownOne;
    if devs == [] {
    } else {
      ShutdownOneChecks(devs[0]);
      ShutdownAllChecks(devs[1..]);
    }
  }

  /** Every operation takes its locks in order, calls libdevmapper only under the global lock, uses, calls about and
      waits for a device only under that device's lock, never sleeps under the global lock, and gives every lock
      back. */
  lemma OperationsChecked(op: Op)
    ensures Check(Code(op), NOTHING) == Some(NOTHING)
  {
    hide Neutral, Lookup, Activate, Deactivate, Delete, Add, Mount, Unmount, WithDevice, WithGlobal, Unless, Block;
    hide Check, Call, PoolCall;
    match op
    case AddDevice(base, taken) =>
      NeutralAdd(base, taken);
      WithDeviceChecks(base, Add(base, taken));
    case DeleteDevice(d) =>
      NeutralDelete(d);
      WithDeviceChecks(d, Delete(d));
    case MountDevice(d) =>
      NeutralMounts(d);
      WithDeviceChecks(d, Mount(d));
    case UnmountDevice(d) =>
      NeutralMounts(d);
      WithDeviceChecks(d, Unmount(d));
    case HasDevice =>
      NeutralLookup(None);
      WithGlobalChecks(Lookup(), None, NOTHING);
    case HasActivatedDevice(d) =>
      NeutralCalls(d);
      WithDeviceChecks(d, Call(d));
    case List =>
      NeutralLookup(None);
      WithGlobalChecks(Lookup(), None, NOTHING);
    case GetDeviceStatus(d) =>
      NeutralCalls(d);
      NeutralWaits(d);
      NeutralUnless(Call(d), Some(d));
      NeutralBlock([Activate(d), Unless(Call(d))], Some(d));
      WithDeviceChecks(d, Block([Activate(d), Unless(Call(d))]));
    case PoolStatus =>
      NeutralCalls(0);
      WithGlobalChecks(PoolCall(), None, NOTHING);
    case Shutdown(devs, base) => ShutdownChecks(devs, base);
  }

  lemma ShutdownChecks(devs: seq<nat>, base: nat)
    ensures Check(Code(Shutdown(devs, base)), NOTHING) == Some(NOTHING)
  {
    hide Neutral, Lookup, Deactivate, WithLocks, WithGlobal, ShutdownAll, PoolCall;
    var pool, last := Block([PoolCall(), Unless(PoolCall())]), Unless(WithLocks(base, Deactivate(base)));
    NeutralCalls(base);
    NeutralUnless(PoolCall(), None);
    NeutralBlock([PoolCall(), Unless(PoolCall())], None);
    NeutralWaits(base);
    LookupChecks(NOTHING);
    ShutdownAllChecks(devs);
    WithLocksChecks(base, Deactivate(base));
    WithGlobalChecks(pool, None, NOTHING);
    var ps := [Lookup(), last, WithGlobal(pool)];
    CheckThree(Lookup(), last, WithGlobal(pool), NOTHING);
    CheckTwo(last, WithGlobal(pool), NOTHING);
    CheckFirst(ShutdownAll(devs), ps, NOTHING, NOTHING);
    assert [Lookup(), ShutdownAll(devs), Lookup(), last, WithGlobal(pool)] == [Lookup()] + ([ShutdownAll(devs)] + ps);
    CheckFirst(Lookup(), [ShutdownAll(devs)] + ps, NOTHING, NOTHING);
  }

  // ---- every reachable state ----

  // The same check on what is left, after the head.
  lemma HeadChecked(t: Thread, end: Held)
    requires t.todo != [] && CheckAll(t.todo, t.held) == Some(end)
    ensures Check(t.todo[0], t.held).Some?
    ensures CheckAll(t.todo[1..], Check(t.todo[0], t.held).value) == Some(end)
  {}

  lemma CheckAllCons(p: Prog, rest: seq<Prog>, h: Held)
    ensures CheckAll([p] + rest, h) == match Check(p, h) case None => None case Some(m) => CheckAll(rest, m)
  {
    assert ([p] + rest)[1..] == rest;
  }

  lemma StepKeepsCheck(s: State, t: Thread, t': Thread, end: Held)
    requires ThreadStep(s, t, t') && CheckAll(t.todo, t.held) == Some(end)
    ensures CheckAll(t'.todo, t'.held) == Some(end)
    ensures t'.held == t.held ||
      (t.todo[0].Do? && Allowed(t.todo[0].a, t.held) && t'.held == After(t.held, t.todo[0].a))
  {
    HeadChecked(t, end);
    var rest := t.todo[1..];
    match t.todo[0]
    case Nop =>
    case Do(a) =>
    case Seq(p, q) =>
      assert [p, q] + rest == [p] + ([q] + rest);
      CheckAllCons(p, [q] + rest, t.held);
      CheckAllCons(q, rest, Check(p, t.held).value);
    case Either(p, q) =>
      CheckAllCons(p, rest, t.held);
      CheckAllCons(q, rest, t.held);
    case Repeat(n, p) =>
      if n > 0 {
        var again := Repeat(n - 1, p);
        assert [p, again] + rest == [p] + ([again] + rest);
        CheckAllCons(p, [again] + rest, t.held);
        CheckAllCons(again, rest, t.held);
      }
  }

  /** One step of any thread keeps the invariant. */
  lemma StepKeepsInv(s: State, i: nat, s': State)
    requires Inv(s) && Step(s, i, s')
    ensures Inv(s')
  {
    hide CheckAll;
    StepKeepsCheck(s, s[i], s'[i], NOTHING);
    forall j, k | 0 <= j < k < |s'|
      ensures Apart(s'[j].held, s'[k].held)
    {
      assert Apart(s[j].held, s[k].held);
    }
  }

  lemma {:induction false} CodesCheck(ops: seq<Op>, ps: seq<Prog>)
    requires |ps| == |ops| && forall k :: 0 <= k < |ops| ==> ps[k] == Code(ops[k])
    ensures CheckAll(ps, NOTHING) == Some(NOTHING)
  {
    hide Code, Check;
    if ops == [] {
    } else {
      OperationsChecked(ops[0]);
      CodesCheck(ops[1..], ps[1..]);
    }
  }

  lemma StartInv(ops: seq<seq<Op>>)
    ensures Inv(Start(ops))
  {
    hide Code, CheckAll;
    var s := Start(ops);
    forall i | 0 <= i < |s|
      ensures CheckAll(s[i].todo, s[i].held) == Some(NOTHING)
    {
      CodesCheck(ops[i], s[i].todo);
    }
  }

  /** Every state of every run of any number of threads keeps the invariant: no lock is held twice, and every thread
      will give back what it holds. */
  lemma {:induction false} RunKeepsInv(ops: seq<seq<Op>>, run: seq<State>, k: nat)
    requires IsRun(run) && run[0] == Start(ops) && k < |run|
    ensures Inv(run[k])
  {
    if k == 0 {
      StartInv(ops);
    } else {
      RunKeepsInv(ops, run, k - 1);
      assert Advances(run[k - 1], run[k - 1 + 1]);
      var i :| Step(run[k - 1], i, run[k]);
      StepKeepsInv(run[k - 1], i, run[k]);
    }
  }

  // A thread that can step has a next state.
  lemma CanAdvance(s: State, i: nat)
    requires i < |s| && CanStep(s, s[i])
    ensures CanGoOn(s)
  {
    var t := s[i];
    var rest := t.todo[1..];
    var t' := match t.todo[0]
      case Nop => t.(todo := rest)
      case Do(a) => Thread(rest, After(t.held, a))
      case Seq(p, q) => t.(todo := [p, q] + rest)
      case Either(p, q) => t.(todo := [p] + rest)
      case Repeat(n, p) => t.(todo := rest);
    assert Step(s, i, s[i := t']);
    assert Advances(s, s[i := t']);
  }

  // What a thread that holds a lock may be waiting for is a lock further down the order.
  lemma Waits(s: State, t: Thread)
    requires CheckAll(t.todo, t.held) == Some(NOTHING) && t.held != NOTHING && !CanStep(s, t)
    ensures !Finished(t) && t.todo[0].Do? && Allowed(t.todo[0].a, t.held) && !Free(s, t.todo[0].a)
    ensures !t.held.table
    ensures t.held.global ==> t.todo[0].a == LockTable
    ensures t.held.info.Some? ==> t.todo[0].a == LockTable || t.todo[0].a == LockGlobal
  {
    if t.todo != [] {
      HeadChecked(t, NOTHING);
    }
  }

  lemma WaitingThread(s: State, t: Thread)
    requires !Finished(t) && !CanStep(s, t)
    ensures t.todo[0].Do? && (t.todo[0].a.LockTable? || t.todo[0].a.LockGlobal? || t.todo[0].a.LockInfo?)
    ensures exists j :: 0 <= j < |s| && s[j].held != NOTHING && HoldsWanted(s[j], t.todo[0].a)
  {
    match t.todo[0].a
    case LockTable =>
      var j :| 0 <= j < |s| && s[j].held.table;
    case LockInfo(d) =>
      var j :| 0 <= j < |s| && s[j].held.info == Some(d);
    case LockGlobal =>
      var j :| 0 <= j < |s| && s[j].held.global;
    case _ =>
  }

  predicate HoldsWanted(t: Thread, a: Action) {
    match a
    case LockTable => t.held.table
    case LockInfo(d) => t.held.info == Some(d)
    case LockGlobal => t.held.global
    case _ => false
  }

  // Following who holds what a thread waits for ends at a thread that can step, in at most three moves.
  lemma SomeoneSteps(s: State, i: nat)
    requires Inv(s) && i < |s| && !Finished(s[i])
    ensures exists j :: 0 <= j < |s| && CanStep(s, s[j])
  {
    hide CheckAll, Free;
    if !CanStep(s, s[i]) {
      WaitingThread(s, s[i]);
      var j :| 0 <= j < |s| && s[j].held != NOTHING && HoldsWanted(s[j], s[i].todo[0].a);
      HolderSteps(s, j);
    }
  }

  lemma HolderSteps(s: State, i: nat)
    requires Inv(s) && i < |s| && s[i].held != NOTHING
    ensures exists j :: 0 <= j < |s| && CanStep(s, s[j])
    decreases if s[i].held.table then 0 else if s[i].held.global then 1 else 2
  {
    hide CheckAll, Free, CanStep;
    if !CanStep(s, s[i]) {
      Waits(s, s[i]);
      WaitingThread(s, s[i]);
      var j :| 0 <= j < |s| && s[j].held != NOTHING && HoldsWanted(s[j], s[i].todo[0].a);
      HolderSteps(s, j);
    }
  }

  /** No deadlock: in every reachable state in which some thread is unfinished, some step can be made. */
  lemma NoDeadlock(ops: seq<seq<Op>>, run: seq<State>, i: nat)
    requires IsRun(run) && run[0] == Start(ops)
    requires var s := run[|run| - 1]; i < |s| && !Finished(s[i])
    ensures CanGoOn(run[|run| - 1])
  {
    hide Inv;
    var s := run[|run| - 1];
    RunKeepsInv(ops, run, |run| - 1);
    SomeoneSteps(s, i);
    var j :| 0 <= j < |s| && CanStep(s, s[j]);
    CanAdvance(s, j);
  }

  /** The thread is inside a call into libdevmapper. */
  predicate InCall(t: Thread) {
    t.todo != [] && t.todo[0].Do? && t.todo[0].a.DmCall?
  }

  /** At most one thread is ever inside a call into libdevmapper. */
  lemma OneCallAtATime(ops: seq<seq<Op>>, run: seq<State>, k: nat, i: nat, j: nat)
    requires IsRun(run) && run[0] == Start(ops) && k < |run|
    requires i < |run[k]| && j < |run[k]| && InCall(run[k][i]) && InCall(run[k][j])
    ensures i == j
  {
    RunKeepsInv(ops, run, k);
    HeadChecked(run[k][i], NOTHING);
    HeadChecked(run[k][j], NOTHING);
  }

  /** The thread uses device d, calls about it or waits for it. */
  predicate AtDevice(t: Thread, d: nat) {
    t.todo != [] && t.todo[0].Do? &&
    (t.todo[0].a == Use(d) || t.todo[0].a == DmCall(Some(d)) || t.todo[0].a == Sleep(d))
  }

  /** Never are two threads at one device, not even while one of them waits with the global lock given up. */
  lemma OneThreadAtDevice(ops: seq<seq<Op>>, run: seq<State>, k: nat, i: nat, j: nat, d: nat)
    requires IsRun(run) && run[0] == Start(ops) && k < |run|
    requires i < |run[k]| && j < |run[k]| && AtDevice(run[k][i], d) && AtDevice(run[k][j], d)
    ensures i == j
  {
    RunKeepsInv(ops, run, k);
    HeadChecked(run[k][i], NOTHING);
    HeadChecked(run[k][j], NOTHING);
  }

  // ---- what the programs can come to ----

  /** Started with h held, p may come to a with g held. */
  predicate MayDo(p: Prog, h: Held, a: Action, g: Held) {
    match p
    case Nop => false
    case Do(b) => b == a && h == g
    case Seq(p, q) => MayDo(p, h, a, g) || (Check(p, h).Some? && MayDo(q, Check(p, h).value, a, g))
    case Either(p, q) => MayDo(p, h, a, g) || MayDo(q, h, a, g)
    case Repeat(n, p) => n > 0 && MayDo(p, h, a, g)
  }

  ghost predicate Reaches(s: State, s': State) {
    exists run :: IsRun(run) && run[0] == s && run[|run| - 1] == s'
  }

  lemma ReachesItself(s: State)
    ensures Reaches(s, s)
  {
    assert IsRun([s]);
  }

  lemma ReachesNext(s: State, s': State, s'': State)
    requires Advances(s, s') && Reaches(s', s'')
    ensures Reaches(s, s'')
  {
    var run :| IsRun(run) && run[0] == s' && run[|run| - 1] == s'';
    var longer := [s] + run;
    forall k | 0 <= k < |longer| - 1
      ensures Advances(longer[k], longer[k + 1])
    {
      if k > 0 {
        assert Advances(run[k - 1], run[k - 1 + 1]);
      }
    }
    assert IsRun(longer) && longer[|longer| - 1] == s'';
  }

  // One step of a thread on its own.
  lemma Alone(t: Thread, t': Thread, end: State)
    requires ThreadStep([t], t, t') && Reaches([t'], end)
    ensures Reaches([t], end)
  {
    assert Step([t], 0, [t']) by {
      assert [t][0 := t'] == [t'];
    }
    ReachesNext([t], [t'], end);
  }

  // A thread on its own comes through a program that checks.
  lemma {:induction false} Through(p: Prog, rest: seq<Prog>, h: Held, end: State)
    requires Check(p, h).Some? && Reaches([Thread(rest, Check(p, h).value)], end)
    ensures Reaches([Thread([p] + rest, h)], end)
    decreases p
  {
    hide Reaches;
    var t := Thread([p] + rest, h);
    assert t.todo[1..] == rest;
    match p
    case Nop => Alone(t, Thread(rest, h), end);
    case Do(a) => Alone(t, Thread(rest, After(h, a)), end);
    case Seq(q, r) =>
      Through(r, rest, Check(q, h).value, end);
      Through(q, [r] + rest, h, end);
      assert [q] + ([r] + rest) == [q, r] + rest;
      Alone(t, Thread([q, r] + rest, h), end);
    case Either(q, r) =>
      Through(q, rest, h, end);
      Alone(t, Thread([q] + rest, h), end);
    case Repeat(n, q) => Alone(t, Thread(rest, h), end);
  }

  /** What a checked program may come to, a thread on its own does come to. */
  lemma {:induction false} MayDoReached(p: Prog, rest: seq<Prog>, h: Held, a: Action, g: Held)
    requires Check(p, h).Some? && MayDo(p, h, a, g)
    ensures exists more :: Reaches([Thread([p] + rest, h)], [Thread([Do(a)] + more, g)])
    decreases p
  {
    hide Reaches;
    var t := Thread([p] + rest, h);
    assert t.todo[1..] == rest;
    match p
    case Do(_) => ReachesItself([t]);
    case Seq(q, r) =>
      var more: seq<Prog>;
      if MayDo(q, h, a, g) {
        MayDoReached(q, [r] + rest, h, a, g);
        more :| Reaches([Thread([q] + ([r] + rest), h)], [Thread([Do(a)] + more, g)]);
      } else {
        MayDoReached(r, rest, Check(q, h).value, a, g);
        more :| Reaches([Thread([r] + rest, Check(q, h).value)], [Thread([Do(a)] + more, g)]);
        Through(q, [r] + rest, h, [Thread([Do(a)] + more, g)]);
      }
      assert [q] + ([r] + rest) == [q, r] + rest;
      Alone(t, Thread([q, r] + rest, h), [Thread([Do(a)] + more, g)]);
    case Either(q, r) =>
      var x := if MayDo(q, h, a, g) then q else r;
      MayDoReached(x, rest, h, a, g);
      var more :| Reaches([Thread([x] + rest, h)], [Thread([Do(a)] + more, g)]);
      Alone(t, Thread([x] + rest, h), [Thread([Do(a)] + more, g)]);
    case Repeat(n, q) =>
      var again := Repeat(n - 1, q);
      MayDoReached(q, [again] + rest, h, a, g);
      var more :| Reaches([Thread([q] + ([again] + rest), h)], [Thread([Do(a)] + more, g)]);
      assert [q] + ([again] + rest) == [q, again] + rest;
      Alone(t, Thread([q, again] + rest, h), [Thread([Do(a)] + more, g)]);
  }

  // What a block may come to in its first program, or after it.
  lemma MayDoFirst(ps: seq<Prog>, h: Held, a: Action, g: Held)
    requires ps != [] && MayDo(ps[0], h, a, g)
    ensures MayDo(Block(ps), h, a, g)
  {}

  lemma MayDoLater(ps: seq<Prog>, h: Held, m: Held, a: Action, g: Held)
    requires ps != [] && Check(ps[0], h) == Some(m) && MayDo(Block(ps[1..]), m, a, g)
    ensures MayDo(Block(ps), h, a, g)
  {}

  lemma MayDoSecond(ps: seq<Prog>, h: Held, m: Held, a: Action, g: Held)
    requires |ps| > 1 && Check(ps[0], h) == Some(m) && MayDo(ps[1], m, a, g)
    ensures MayDo(Block(ps), h, a, g)
  {
    MayDoFirst(ps[1..], m, a, g);
    MayDoLater(ps, h, m, a, g);
  }

  function Locked(d: nat): Held {
    Held(Some(d), true, false)
  }

  function Waiting(d: nat): Held {
    Held(Some(d), false, false)
  }

  lemma MayWait(d: nat)
    ensures MayDo(WaitFor(d), Locked(d), Sleep(d), Waiting(d))
    ensures MayDo(RemoveAndWait(d), Locked(d), Sleep(d), Waiting(d))
    ensures MayDo(Deactivate(d), Locked(d), Sleep(d), Waiting(d))
  {
    hide Block;
    var h := Locked(d);
    MayDoSecond([Do(UnlockGlobal), Do(Sleep(d)), Do(LockGlobal)], h, Waiting(d), Sleep(d), Waiting(d));
    MayDoSecond([Call(d), Pause(d)], h, h, Sleep(d), Waiting(d));
    MayDoFirst([Repeat(TRIES, Turn(d)), Unless(Call(d))], h, Sleep(d), Waiting(d));
    MayDoFirst([Repeat(TRIES, Turn(d)), Unless(Block([Call(d), Unless(WaitFor(d))]))], h, Sleep(d), Waiting(d));
    MayDoFirst([WaitFor(d), Call(d), Unless(RemoveAndWait(d))], h, Sleep(d), Waiting(d));
  }

  // What the body of an operation on a device may come to.
  lemma WithDeviceMayDo(d: nat, body: Prog, a: Action, g: Held)
    requires MayDo(body, Locked(d), a, g)
    ensures MayDo(WithDevice(d, body), NOTHING, a, g)
  {
    hide Block;
    var ps := [Do(LockInfo(d)), Do(LockGlobal), body, Do(UnlockGlobal), Do(UnlockInfo)];
    assert ps[1..][0] == Do(LockGlobal) && ps[1..][1] == body;
    MayDoSecond(ps[1..], Waiting(d), Locked(d), a, g);
    MayDoLater(ps, NOTHING, Waiting(d), a, g);
    LookupChecks(NOTHING);
    MayDoSecond([Lookup(), Unless(WithLocks(d, body))], NOTHING, NOTHING, a, g);
  }

  /** Unmounting, deleting and shutting down do come to wait for a device, with its lock held and the global lock given
      up. */
  lemma WaitsReached(op: Op, d: nat)
    requires op == UnmountDevice(d) || op == DeleteDevice(d) || (op.Shutdown? && op.devs != [] && op.devs[0] == d)
    ensures exists more :: Reaches([Thread([Code(op)], NOTHING)], [Thread([Do(Sleep(d))] + more, Waiting(d))])
  {
    hide Block, Reaches, WithDevice, WaitFor, RemoveAndWait, Deactivate, Activate, Call, ShutdownAll, WithGlobal;
    var a, g, h := Sleep(d), Waiting(d), Locked(d);
    MayWait(d);
    NeutralCalls(d);
    NeutralWaits(d);
    match op {
      case UnmountDevice(_) =>
        MayDoFirst([Deactivate(d), Unless(Do(Use(d)))], h, a, g);
        MayDoSecond([Do(Use(d)), Unless(Block([Deactivate(d), Unless(Do(Use(d)))]))], h, h, a, g);
        WithDeviceMayDo(d, Unmount(d), a, g);
      case DeleteDevice(_) =>
        var ps := [Unless(Activate(d)), Call(d), Unless(RemoveAndWait(d)), Unless(Block([Call(d), Unless(Forget())]))];
        NeutralUnless(Activate(d), Some(d));
        assert ps[1..][0] == Call(d) && ps[1..][1] == Unless(RemoveAndWait(d));
        MayDoSecond(ps[1..], h, h, a, g);
        MayDoLater(ps, h, h, a, g);
        WithDeviceMayDo(d, Delete(d), a, g);
      case Shutdown(devs, base) => ShutdownWaits(devs, base);
    }
    OperationsChecked(op);
    assert [Code(op)] + [] == [Code(op)];
    MayDoReached(Code(op), [], NOTHING, a, g);
  }

  /** Mounting, asking for the status and adding do come to call libdevmapper about their device, and adding to the save
      that updates the pool. */
  lemma CallsReached(op: Op, d: nat, about: Option<nat>)
    requires op == MountDevice(d) || op == GetDeviceStatus(d) || op == HasActivatedDevice(d) ||
      (op.AddDevice? && op.base == d)
    requires about == Some(d) || (op.AddDevice? && about == None)
    ensures exists more :: Reaches([Thread([Code(op)], NOTHING)], [Thread([Do(DmCall(about))] + more, Locked(d))])
  {
    hide Block, Reaches, WithDevice;
    var a, h := DmCall(about), Locked(d);
    match op {
      case MountDevice(_) =>
        MayDoFirst([Call(d), Unless(Call(d))], h, a, h);
        MayDoFirst([Activate(d), Unless(Do(Use(d)))], h, a, h);
        MayDoSecond([Do(Use(d)), Unless(Block([Activate(d), Unless(Do(Use(d)))]))], h, h, a, h);
        WithDeviceMayDo(d, Mount(d), a, h);
      case GetDeviceStatus(_) =>
        MayDoFirst([Call(d), Unless(Call(d))], h, a, h);
        MayDoFirst([Activate(d), Unless(Call(d))], h, a, h);
        WithDeviceMayDo(d, Block([Activate(d), Unless(Call(d))]), a, h);
      case HasActivatedDevice(_) => WithDeviceMayDo(d, Call(d), a, h);
      case AddDevice(_, taken) =>
        AddCalls(d, taken, about);
        WithDeviceMayDo(d, Add(d, taken), a, h);
    }
    OperationsChecked(op);
    assert [Code(op)] + [] == [Code(op)];
    MayDoReached(Code(op), [], NOTHING, a, h);
  }

  /** Every operation but the pool's status does come to lock the map of devices, and those that only read the map do so
      under the global lock. */
  lemma TableReached(op: Op)
    requires !op.PoolStatus?
    ensures var h := if op.HasDevice? || op.List? then Held(None, true, false) else NOTHING;
      exists more :: Reaches([Thread([Code(op)], NOTHING)], [Thread([Do(LockTable)] + more, h)])
  {
    hide Block, Reaches, ShutdownAll, WithLocks;
    var h := if op.HasDevice? || op.List? then Held(None, true, false) else NOTHING;
    MayDoFirst([Do(LockTable), Do(UnlockTable)], h, LockTable, h);
    match op {
      case HasDevice => MayDoSecond([Do(LockGlobal), Lookup(), Do(UnlockGlobal)], NOTHING, h, LockTable, h);
      case List => MayDoSecond([Do(LockGlobal), Lookup(), Do(UnlockGlobal)], NOTHING, h, LockTable, h);
      case Shutdown(devs, base) =>
        MayDoFirst([Lookup(), ShutdownAll(devs), Lookup(), Unless(WithLocks(base, Deactivate(base))),
                    WithGlobal(Block([PoolCall(), Unless(PoolCall())]))], h, LockTable, h);
      case AddDevice(base, taken) => MayDoFirst([Lookup(), Unless(WithLocks(base, Add(base, taken)))], h, LockTable, h);
      case DeleteDevice(d) => MayDoFirst([Lookup(), Unless(WithLocks(d, Delete(d)))], h, LockTable, h);
      case MountDevice(d) => MayDoFirst([Lookup(), Unless(WithLocks(d, Mount(d)))], h, LockTable, h);
      case UnmountDevice(d) => MayDoFirst([Lookup(), Unless(WithLocks(d, Unmount(d)))], h, LockTable, h);
      case HasActivatedDevice(d) => MayDoFirst([Lookup(), Unless(WithLocks(d, Call(d)))], h, LockTable, h);
      case GetDeviceStatus(d) =>
        MayDoFirst([Lookup(), Unless(WithLocks(d, Block([Activate(d), Unless(Call(d))])))], h, LockTable, h);
    }
    OperationsChecked(op);
    assert [Code(op)] + [] == [Code(op)];
    MayDoReached(Code(op), [], NOTHING, LockTable, h);
  }

  lemma AddCalls(d: nat, taken: nat, about: Option<nat>)
    requires about == Some(d) || about == None
    ensures MayDo(Add(d, taken), Locked(d), DmCall(about), Locked(d))
  {
    hide Block, Lookup;
    var a, h := DmCall(about), Locked(d);
    var ps := [CreateSnap(d, taken), Unless(Register())];
    LookupChecks(h);
    if about == None {
      SnapChecks(d, taken);
      MayDoSecond([Lookup(), Unless(PoolCall()), Unless(Undo())], h, h, a, h);
      MayDoSecond(ps, h, h, a, h);
    } else {
      MayDoFirst([Call(d), Unless(Call(d)), Unless(CreateSnapId(d, taken))], h, a, h);
      MayDoFirst(ps, h, a, h);
    }
    MayDoSecond([Lookup(), Unless(Block(ps))], h, h, a, h);
  }

  lemma SnapChecks(d: nat, taken: nat)
    ensures Check(CreateSnap(d, taken), Locked(d)) == Some(Locked(d))
  {
    hide Block;
    var about := Some(d);
    NeutralCalls(d);
    NeutralUnless(Call(d), about);
    NeutralRepeat(taken, Call(d), about);
    NeutralBlock([Repeat(taken, Call(d)), Call(d), Unless(Call(d))], about);
    NeutralUnless(CreateSnapId(d, taken), about);
    NeutralBlock([Call(d), Unless(Call(d)), Unless(CreateSnapId(d, taken))], about);
  }

  lemma ShutdownWaits(devs: seq<nat>, base: nat)
    requires devs != []
    ensures MayDo(Code(Shutdown(devs, base)), NOTHING, Sleep(devs[0]), Waiting(devs[0]))
  {
    hide Block, WithLocks, Deactivate;
    var d := devs[0];
    var a, g := Sleep(d), Waiting(d);
    MayWait(d);
    MayDoSecond([Do(LockGlobal), Deactivate(d), Do(UnlockGlobal)], g, Locked(d), a, g);
    var one := Unless(WithGlobal(Deactivate(d)));
    var ps := [Do(LockInfo(d)), Do(Use(d)), one, Do(UnlockInfo)];
    assert ps[1..][0] == Do(Use(d)) && ps[1..][1] == one;
    MayDoSecond(ps[1..], g, g, a, g);
    MayDoLater(ps, NOTHING, g, a, g);
    LookupChecks(NOTHING);
    var last := Unless(WithLocks(base, Deactivate(base)));
    MayDoSecond([Lookup(), ShutdownAll(devs), Lookup(), last, WithGlobal(Block([PoolCall(), Unless(PoolCall())]))],
                NOTHING, NOTHING, a, g);
  }

  // ---- every run ends ----

  function Turns(n: nat, size: nat): nat {
    if n == 0 then 1 else size + 1 + Turns(n - 1, size)
  }

  function Size(p: Prog): nat {
    match p
    case Nop => 1
    case Do(_) => 1
    case Seq(p, q) => 1 + Size(p) + Size(q)
    case Either(p, q) => 1 + Size(p) + Size(q)
    case Repeat(n, p) => Turns(n, Size(p))
  }

  lemma {:induction false} SizePositive(p: Prog)
    ensures Size(p) > 0
  {}

  function Sizes(ps: seq<Prog>): nat {
    if ps == [] then 0 else Size(ps[0]) + Sizes(ps[1..])
  }

  /** How many steps the threads have left at most. */
  function Left(s: State): nat {
    if s == [] then 0 else Sizes(s[0].todo) + Left(s[1..])
  }

  lemma SizesCons(p: Prog, rest: seq<Prog>)
    ensures Sizes([p] + rest) == Size(p) + Sizes(rest)
  {
    assert ([p] + rest)[1..] == rest;
  }

  lemma ThreadStepShrinks(s: State, t: Thread, t': Thread)
    requires ThreadStep(s, t, t')
    ensures Sizes(t'.todo) < Sizes(t.todo)
  {
    var rest := t.todo[1..];
    SizePositive(t.todo[0]);
    match t.todo[0]
    case Nop =>
    case Do(a) =>
    case Seq(p, q) =>
      assert [p, q] + rest == [p] + ([q] + rest);
      SizesCons(p, [q] + rest);
      SizesCons(q, rest);
    case Either(p, q) =>
      SizePositive(p);
      SizePositive(q);
      SizesCons(p, rest);
      SizesCons(q, rest);
    case Repeat(n, p) =>
      if n > 0 {
        var again := Repeat(n - 1, p);
        assert [p, again] + rest == [p] + ([again] + rest);
        SizesCons(p, [again] + rest);
        SizesCons(again, rest);
      }
  }

  lemma {:induction false} LeftUpdate(s: State, i: nat, t: Thread)
    requires i < |s|
    ensures Left(s[i := t]) == Left(s) - Sizes(s[i].todo) + Sizes(t.todo)
  {
    if i > 0 {
      assert s[i := t][1..] == s[1..][i - 1 := t];
      LeftUpdate(s[1..], i - 1, t);
    } else {
      assert s[i := t][1..] == s[1..];
    }
  }

  /** A run has no more steps than its threads had at the start: with no deadlock, every run that goes on as long as it
      can finishes every operation of every thread. */
  lemma {:induction false} RunsEnd(run: seq<State>, k: nat)
    requires IsRun(run) && k < |run|
    ensures k + Left(run[k]) <= Left(run[0])
  {
    hide Sizes;
    if k > 0 {
      RunsEnd(run, k - 1);
      assert Advances(run[k - 1], run[k - 1 + 1]);
      var i: nat :| Step(run[k - 1], i, run[k]);
      ThreadStepShrinks(run[k - 1], run[k - 1][i], run[k][i]);
      LeftUpdate(run[k - 1], i, run[k][i]);
    }
  }

  // ---- why the order matters ----

  /** A thread that took the global lock before a device lock could deadlock with any operation on that device. */
  lemma GlobalFirstDeadlocks(d: nat, body: Prog)
    ensures var wrong := Thread([Do(LockInfo(d)), Do(UnlockInfo), Do(UnlockGlobal)], Held(None, true, false));
      var right := Thread([Do(LockGlobal), body, Do(UnlockGlobal), Do(UnlockInfo)], Held(Some(d), false, false));
      Check(WithGlobal(Block([Do(LockInfo(d)), Do(UnlockInfo)])), NOTHING).None? &&
      !CanGoOn([wrong, right])
  {
    var wrong := Thread([Do(LockInfo(d)), Do(UnlockInfo), Do(UnlockGlobal)], Held(None, true, false));
    var right := Thread([Do(LockGlobal), body, Do(UnlockGlobal), Do(UnlockInfo)], Held(Some(d), false, false));
    var s := [wrong, right];
    assert s[1].held.info == Some(d) && s[0].held.global;
    assert !CanStep(s, s[0]) && !CanStep(s, s[1]);
    CheckThree(Do(LockGlobal), Block([Do(LockInfo(d)), Do(UnlockInfo)]), Do(UnlockGlobal), NOTHING);
    var h := Held(None, true, false);
    CheckTwo(Block([Do(LockInfo(d)), Do(UnlockInfo)]), Do(UnlockGlobal), h);
    CheckTwo(Do(LockInfo(d)), Do(UnlockInfo), h);
  }
}
