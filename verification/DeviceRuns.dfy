/** What every run of DeviceSet operations keeps: device ids, transaction ids and mount counts. */
module DeviceRuns {
  import opened Wrappers
  import opened DeviceState

  // ---- what holds until something is done ----

  /** P holds in every state of the run. */
  ghost predicate AlwaysHolds(P: State -> bool, s: State, ops: seq<Op>) {
    forall i :: 0 <= i <= |ops| ==> P(RunAll(s, ops[..i]))
  }

  /** No operation of the run does D. */
  ghost predicate NeverDone(D: (State, Op) -> bool, s: State, ops: seq<Op>) {
    forall i :: 0 <= i < |ops| ==> !D(RunAll(s, ops[..i]), ops[i])
  }

  lemma AlwaysSnoc(P: State -> bool, s: State, ops: seq<Op>)
    requires ops != []
    ensures AlwaysHolds(P, s, ops) <==> AlwaysHolds(P, s, ops[..|ops| - 1]) && P(RunAll(s, ops))
  {
    hide RunAll;
    var before := ops[..|ops| - 1];
    assert ops[..|ops|] == ops;
    assert forall i :: 0 <= i <= |before| ==> before[..i] == ops[..i];
    forall i | 0 <= i <= |ops|
      ensures P(RunAll(s, ops[..i])) <==> if i == |ops| then P(RunAll(s, ops)) else P(RunAll(s, before[..i]))
    {
    }
  }

  lemma NeverSnoc(D: (State, Op) -> bool, s: State, ops: seq<Op>)
    requires ops != []
    ensures NeverDone(D, s, ops) <==>
      NeverDone(D, s, ops[..|ops| - 1]) && !D(RunAll(s, ops[..|ops| - 1]), ops[|ops| - 1])
  {
    hide RunAll;
    var before := ops[..|ops| - 1];
    assert forall i :: 0 <= i < |before| ==> before[..i] == ops[..i] && before[i] == ops[i];
  }

  /** When D is exactly what ends P, P holds in every state of a run if and only if D is never done. */
  lemma {:induction false} HoldsUntilDone(P: State -> bool, D: (State, Op) -> bool, s: State, ops: seq<Op>)
    requires forall x, op :: P(x) ==> (P(Apply(x, op).s) <==> !D(x, op))
    requires P(s)
    ensures AlwaysHolds(P, s, ops) <==> NeverDone(D, s, ops)
  {
    hide Apply;
    if ops == [] {
      assert ops[..0] == [];
    } else {
      var before := ops[..|ops| - 1];
      HoldsUntilDone(P, D, s, before);
      AlwaysSnoc(P, s, ops);
      NeverSnoc(D, s, ops);
      if AlwaysHolds(P, s, before) {
        assert before[..|before|] == before;
        assert P(RunAll(s, before[..|before|]));
      }
    }
  }

  // ---- transaction ids ----

  /** No known device is ahead of the set, and the set is where the pool is. */
  ghost predicate TidsOk(s: State) {
    && (forall h :: h in s.devices ==> s.devices[h].tid <= s.transactionId)
    && s.transactionId <= s.newTransactionId
    && s.transactionId == s.poolTid
  }

  lemma LookupKeepsTids(s: State, hash: string)
    requires TidsOk(s)
    ensures TidsOk(Lookup(s, hash))
  {}

  lemma AddKeepsTids(s: State, hash: string, base: string, env: AddEnv)
    requires TidsOk(s)
    ensures TidsOk(AddDevice(s, hash, base, env).s)
  {
    hide FreeId, Lookup;
    LookupKeepsTids(s, base);
    LookupKeepsTids(Lookup(s, base), hash);
  }

  lemma OthersKeepTids(s: State, op: Op)
    requires TidsOk(s) && !op.Add?
    ensures TidsOk(Apply(s, op).s)
  {
    hide IsMounted, Unmounted, Lookup;
    match op
    case Remove(hash, _) => LookupKeepsTids(s, hash);
    case MountAt(hash, _, _) => LookupKeepsTids(s, hash);
    case Unmount(hash, _) => LookupKeepsTids(s, hash);
    case Has(hash) => LookupKeepsTids(s, hash);
    case Status(hash, _) => LookupKeepsTids(s, hash);
    case Reboot =>
  }

  lemma TidsKept(s: State, op: Op)
    requires TidsOk(s)
    ensures TidsOk(Apply(s, op).s)
  {
    hide TidsOk, AddDevice, DeleteDevice, MountDevice, UnmountDevice, Lookup;
    if op.Add? {
      AddKeepsTids(s, op.hash, op.base, op.addEnv);
    } else {
      OthersKeepTids(s, op);
    }
  }

  /** Transaction ids at every boundary between operations, whatever fails. */
  lemma {:induction false} TidsAlways(s: State, ops: seq<Op>)
    requires TidsOk(s)
    ensures TidsOk(RunAll(s, ops))
  {
    hide TidsOk, Apply;
    if ops == [] {
    } else {
      TidsAlways(s, ops[..|ops| - 1]);
      TidsKept(RunAll(s, ops[..|ops| - 1]), ops[|ops| - 1]);
    }
  }

  /** A record that was renamed into place but never committed is not loaded by the set that starts next. */
  lemma CrashIgnored(s: State, hash: string, id: nat)
    requires TidsOk(s)
    ensures var again := Restart(CrashedAdd(s, hash, id));
      && TidsOk(again) && again.transactionId == s.transactionId
      && !Known(again, hash) && Lookup(again, hash) == again
  {}

  /** That is the state AddDevice is in when it has renamed the record: it fails in the same place, and a restart
      forgets the rest. */
  lemma CrashIsAdd(s: State, hash: string, base: string, id: nat)
    requires TidsOk(s) && base in Lookup(s, base).devices && hash !in Lookup(Lookup(s, base), hash).devices
    requires id == FreeId(s.pool, s.nextDeviceId) < ID_LIMIT
    ensures Restart(CrashedAdd(s, hash, id)) ==
      Restart(AddDevice(s, hash, base, AddEnv(false, false, NotCommitted, true)).s)
  {
    hide FreeId;
  }

  /** The operations neither add nor remove the device. */
  predicate LeaveAlone(ops: seq<Op>, hash: string) {
    forall op :: op in ops ==> (op.Add? || op.Remove? ==> op.hash != hash)
  }

  // A set that has the device in memory has reached its record.
  ghost predicate RecordOk(s: State, hash: string) {
    TidsOk(s) && hash in s.files && (hash in s.devices ==> s.files[hash].tid <= s.transactionId)
  }

  lemma RecordLookup(s: State, hash: string, other: string)
    requires RecordOk(s, hash)
    ensures RecordOk(Lookup(s, other), hash) && Lookup(s, other).files == s.files
    ensures Lookup(s, other).transactionId == s.transactionId
  {}

  lemma RecordKept(s: State, op: Op, hash: string)
    requires RecordOk(s, hash) && LeaveAlone([op], hash)
    ensures RecordOk(Apply(s, op).s, hash) && Apply(s, op).s.files[hash] == s.files[hash]
  {
    hide Lookup, TidsOk, FreeId, IsMounted, Unmounted;
    TidsKept(s, op);
    assert op in [op];
    match op
    case Add(other, base, _) =>
      RecordLookup(s, hash, base);
      RecordLookup(Lookup(s, base), hash, other);
      TidsBounds(Lookup(Lookup(s, base), other));
    case Remove(other, _) => RecordLookup(s, hash, other);
    case MountAt(other, _, _) => RecordLookup(s, hash, other);
    case Unmount(other, _) => RecordLookup(s, hash, other);
    case Status(other, _) => RecordLookup(s, hash, other);
    case Has(other) => RecordLookup(s, hash, other);
    case Reboot =>
  }

  lemma TidsBounds(s: State)
    requires TidsOk(s)
    ensures s.poolTid == s.transactionId <= s.newTransactionId
  {}

  /** As long as the device is left alone its record stays, and the device is known exactly when the set has reached the
      record's transaction id: a lost record comes back as soon as other operations have committed that far. */
  lemma {:induction false} RecordReturns(s: State, ops: seq<Op>, hash: string)
    requires RecordOk(s, hash) && LeaveAlone(ops, hash)
    ensures var s' := RunAll(s, ops);
      && RecordOk(s', hash) && s'.files[hash] == s.files[hash]
      && (Known(s', hash) <==> s.files[hash].tid <= s'.transactionId)
  {
    hide Apply, TidsOk;
    if ops == [] {
    } else {
      var n := |ops| - 1;
      RecordReturns(s, ops[..n], hash);
      assert LeaveAlone([ops[n]], hash);
      RecordKept(RunAll(s, ops[..n]), ops[n], hash);
    }
  }

  /** For instance with the next operation that commits: here the set adds another device, and the lost one is
      known again. */
  lemma CrashedRecordReturns(s: State, hash: string, id: nat, other: string, base: string)
    requires TidsOk(s) && s.newTransactionId == s.transactionId && hash != other && other != base && hash != base
    requires Loadable(s, base) && other !in s.files && FreeId(s.pool + {id}, 0) < ID_LIMIT
    ensures var again := Restart(CrashedAdd(s, hash, id));
      var o := AddDevice(again, other, base, AddEnv(false, false, Saved, false));
      o.ok && !Known(again, hash) && Known(o.s, hash)
  {
    hide FreeId;
  }

  // ---- device ids ----

  /** Every device the set has in memory has its record on disk, records of different devices have different ids,
      and the pool has them all. */
  ghost predicate IdsFit(s: State) {
    && TidsOk(s)
    && (forall h :: h in s.files ==> s.files[h].id in s.pool)
    && (forall h, g :: h in s.files && g in s.files && h != g ==> s.files[h].id != s.files[g].id)
    && (forall h :: h in s.devices ==> h in s.files && s.files[h] == Record(s.devices[h].id, s.devices[h].tid))
    && s.nextDeviceId < ID_LIMIT
  }

  /** The operation gives an id back to the pool and leaves its record: an Add whose save fails between the rename
      and the update of the pool, or a Remove whose metadata stays. */
  predicate Loses(s: State, op: Op) {
    match op
    case Add(hash, base, env) =>
      var s1 := Lookup(s, base);
      var s2 := Lookup(s1, hash);
      && base in s1.devices && hash !in s2.devices
      && !env.snapFails && FreeId(s2.pool, s2.nextDeviceId) < ID_LIMIT && !(base in s2.active && env.resumeFails)
      && env.save.NotCommitted? && !env.undoFails
    case Remove(hash, env) =>
      var s1 := Lookup(s, hash);
      && hash in s1.devices
      && (env.discardActivates || hash in s1.active ==> !env.removeFails && !IsMounted(s1, hash))
      && !env.deleteFails && env.metadataFails
    case _ => false
  }

  lemma LookupKeepsFit(s: State, hash: string)
    requires IdsFit(s)
    ensures IdsFit(Lookup(s, hash))
    ensures Lookup(s, hash).pool == s.pool && Lookup(s, hash).files == s.files
  {}

  // Nothing was saved.
  lemma UnsavedFit(s: State, s': State)
    requires IdsFit(s) && s'.pool >= s.pool && s'.newTransactionId >= s.newTransactionId && s'.nextDeviceId < ID_LIMIT
    requires s'.files == s.files && s'.devices == s.devices
    requires s'.transactionId == s.transactionId && s'.poolTid == s.poolTid
    ensures IdsFit(s')
  {}

  // A record was renamed into place, and the device forgotten.
  lemma RenamedFit(s: State, s': State, hash: string, r: Record)
    requires IdsFit(s) && hash !in s.devices && r.id !in s.pool && s'.files == s.files[hash := r]
    requires s'.pool == s.pool + {r.id} || s'.pool == s.pool
    requires s'.devices == s.devices && s'.newTransactionId >= s.newTransactionId && s'.nextDeviceId < ID_LIMIT
    requires s'.transactionId == s.transactionId && s'.poolTid == s.poolTid
    ensures IdsFit(s') <==> r.id in s'.pool
  {
    assert s'.files[hash] == r;
    assert forall h :: h in s.files ==> s.files[h].id != r.id;
  }

  // The device was saved.
  lemma SavedFit(s: State, s': State, hash: string, info: Info)
    requires IdsFit(s) && info.id !in s.pool && s'.pool == s.pool + {info.id}
    requires s'.files == s.files[hash := Record(info.id, info.tid)] && s'.devices == s.devices[hash := info]
    requires info.tid == s.newTransactionId + 1 && s'.nextDeviceId < ID_LIMIT
    requires s'.transactionId == s'.newTransactionId == s'.poolTid == info.tid
    ensures IdsFit(s')
  {
    assert forall h :: h in s.files ==> s.files[h].id != info.id;
  }

  // A device that was saved, or not, under an id that was free.
  lemma RegisterFit(s: State, id: nat, hash: string, env: AddEnv)
    requires IdsFit(s) && id !in s.pool && hash !in s.devices
    ensures var s1 := s.(pool := s.pool + {id}, nextDeviceId := (id + 1) % ID_LIMIT);
      var o := RegisterDevice(s1, id, hash, env.save);
      var s' := if o.ok || env.undoFails then o.s else o.s.(pool := o.s.pool - {id});
      IdsFit(s') <==> !(env.save.NotCommitted? && !env.undoFails)
  {
    var s1 := s.(pool := s.pool + {id}, nextDeviceId := (id + 1) % ID_LIMIT);
    var o := RegisterDevice(s1, id, hash, env.save);
    var s' := if o.ok || env.undoFails then o.s else o.s.(pool := o.s.pool - {id});
    TidsBounds(s);
    assert s.pool + {id} - {id} == s.pool;
    var info := Info(id, s.newTransactionId + 1, 0, "");
    assert s.devices[hash := info] - {hash} == s.devices;
    hide IdsFit;
    match env.save
    case NotRenamed => UnsavedFit(s, s');
    case NotCommitted => RenamedFit(s, s', hash, Record(id, s.newTransactionId + 1));
    case Saved => SavedFit(s, s', hash, info);
  }

  lemma AddFit(s: State, op: Op)
    requires IdsFit(s) && op.Add?
    ensures IdsFit(Apply(s, op).s) <==> !Loses(s, op)
  {
    hide FreeId, RegisterDevice, Lookup, IdsFit;
    LookupKeepsFit(s, op.base);
    var s1 := Lookup(s, op.base);
    LookupKeepsFit(s1, op.hash);
    var s2 := Lookup(s1, op.hash);
    var id := FreeId(s2.pool, s2.nextDeviceId);
    MoreIdsFit(s2, id);
    if op.hash !in s2.devices {
      RegisterFit(s2, id, op.hash, op.addEnv);
    }
  }

  // An id of the pool that no device has.
  lemma MoreIdsFit(s: State, id: nat)
    requires IdsFit(s)
    ensures IdsFit(s.(pool := s.pool + {id}))
  {}

  lemma RemoveFit(s: State, op: Op)
    requires IdsFit(s) && op.Remove?
    ensures IdsFit(Apply(s, op).s) <==> !Loses(s, op)
  {
    hide IsMounted, Lookup;
    LookupKeepsFit(s, op.hash);
    MountsDecide(Lookup(s, op.hash), op.hash);
  }

  /** Whatever fails, an operation keeps ids apart and in the pool if and only if it does not lose one. */
  lemma FitKept(s: State, op: Op)
    requires IdsFit(s)
    ensures IdsFit(Apply(s, op).s) <==> !Loses(s, op)
  {
    hide AddDevice, DeleteDevice, MountDevice, UnmountDevice, GetDeviceStatus, Lookup, SameIds, IdsFit, FreeId;
    match op
    case Add(_, _, _) => AddFit(s, op);
    case Remove(_, _) => RemoveFit(s, op);
    case Has(hash) => LookupKeepsFit(s, hash);
    case Reboot => RestartFit(s);
    case _ =>
      LookupKeepsFit(s, op.hash);
      MountsKeepIds(s, op);
      SameIdsFit(Lookup(s, op.hash), Apply(s, op).s);
  }

  lemma RestartFit(s: State)
    requires IdsFit(s)
    ensures IdsFit(Restart(s))
  {}

  /** Over every run, whatever fails, ids are apart and in the pool in every state if and only if no operation of
      the run loses one. */
  lemma FitAlways(s: State, ops: seq<Op>)
    requires IdsFit(s)
    ensures AlwaysHolds(IdsFit, s, ops) <==> NeverDone(Loses, s, ops)
  {
    hide IdsFit, Loses, Apply;
    forall x, op | IdsFit(x)
      ensures IdsFit(Apply(x, op).s) <==> !Loses(x, op)
    {
      FitKept(x, op);
    }
    HoldsUntilDone(IdsFit, Loses, s, ops);
  }

  /** Also no record is ahead of the set, as when no save has failed after its rename. */
  ghost predicate IdsOk(s: State) {
    IdsFit(s) && forall h :: h in s.files ==> s.files[h].tid <= s.transactionId
  }

  /** The metadata writes and removals of the operation succeed. */
  predicate MetadataWorks(op: Op) {
    match op
    case Add(_, _, env) => env.save.Saved?
    case Remove(_, env) => !env.metadataFails
    case _ => true
  }

  lemma WorksLosesNone(s: State, op: Op)
    requires MetadataWorks(op)
    ensures !Loses(s, op)
  {
    hide Lookup, FreeId, IsMounted;
  }

  lemma LookupKeepsIds(s: State, hash: string)
    requires IdsOk(s)
    ensures IdsOk(Lookup(s, hash))
    ensures hash !in Lookup(s, hash).devices ==> hash !in Lookup(s, hash).files
  {}

  // Only what is mounted and activated changes.
  ghost predicate SameIds(s: State, s': State) {
    && s' == s.(devices := s'.devices, active := s'.active, mounts := s'.mounts)
    && s'.devices.Keys == s.devices.Keys
    && forall h :: h in s.devices ==> s'.devices[h].id == s.devices[h].id && s'.devices[h].tid == s.devices[h].tid
  }

  lemma SameIdsOk(s: State, s': State)
    requires IdsOk(s) && SameIds(s, s')
    ensures IdsOk(s')
  {}

  lemma SameIdsFit(s: State, s': State)
    requires IdsFit(s) && SameIds(s, s')
    ensures IdsFit(s')
  {}

  lemma MountsKeepIds(s: State, op: Op)
    requires op.MountAt? || op.Unmount? || op.Status?
    ensures SameIds(Lookup(s, op.hash), Apply(s, op).s)
  {
    hide IsMounted, Unmounted;
  }

  lemma RegisterKeepsIds(s: State, id: nat, hash: string)
    requires IdsOk(s) && id !in s.pool && hash !in s.files && hash !in s.devices
    ensures var s1 := s.(pool := s.pool + {id}, nextDeviceId := (id + 1) % ID_LIMIT);
      var o := RegisterDevice(s1, id, hash, Saved);
      o.ok && IdsOk(o.s)
  {}

  lemma AddKeepsIds(s: State, hash: string, base: string, env: AddEnv)
    requires IdsOk(s) && env.save.Saved?
    ensures IdsOk(AddDevice(s, hash, base, env).s)
  {
    hide FreeId, RegisterDevice, Lookup, IdsOk;
    LookupKeepsIds(s, base);
    var s1 := Lookup(s, base);
    LookupKeepsIds(s1, hash);
    var s2 := Lookup(s1, hash);
    var id := FreeId(s2.pool, s2.nextDeviceId);
    if hash !in s2.devices {
      RegisterKeepsIds(s2, id, hash);
      MoreIdsOk(s2, id);
    }
  }

  // An id of the pool that no device has.
  lemma MoreIdsOk(s: State, id: nat)
    requires IdsOk(s)
    ensures IdsOk(s.(pool := s.pool + {id}))
  {}

  lemma RemoveKeepsIds(s: State, hash: string, env: DeleteEnv)
    requires IdsOk(s) && !env.metadataFails
    ensures IdsOk(DeleteDevice(s, hash, env).s)
  {
    hide IsMounted, Lookup;
    LookupKeepsIds(s, hash);
  }

  lemma IdsKept(s: State, op: Op)
    requires IdsOk(s) && MetadataWorks(op)
    ensures IdsOk(Apply(s, op).s)
  {
    hide AddDevice, DeleteDevice, MountDevice, UnmountDevice, Lookup, SameIds;
    match op
    case Add(hash, base, env) => AddKeepsIds(s, hash, base, env);
    case Remove(hash, env) => RemoveKeepsIds(s, hash, env);
    case MountAt(hash, _, _) =>
      LookupKeepsIds(s, hash);
      MountsKeepIds(s, op);
      SameIdsOk(Lookup(s, hash), Apply(s, op).s);
    case Unmount(hash, _) =>
      LookupKeepsIds(s, hash);
      MountsKeepIds(s, op);
      SameIdsOk(Lookup(s, hash), Apply(s, op).s);
    case Status(hash, _) =>
      LookupKeepsIds(s, hash);
      MountsKeepIds(s, op);
      SameIdsOk(Lookup(s, hash), Apply(s, op).s);
    case Has(hash) => LookupKeepsIds(s, hash);
    case Reboot =>
  }

  /** While metadata writes and removals succeed, over every run distinct known devices have distinct ids, all of
      which the pool has, and the next id to try fits in 24 bits. */
  lemma {:induction false} IdsAlways(s: State, ops: seq<Op>)
    requires IdsOk(s) && forall op :: op in ops ==> MetadataWorks(op)
    ensures NeverDone(Loses, s, ops) && IdsOk(RunAll(s, ops))
  {
    hide IdsOk, Apply, MetadataWorks, Loses;
    if ops == [] {
    } else {
      IdsAlways(s, ops[..|ops| - 1]);
      var s1 := RunAll(s, ops[..|ops| - 1]);
      IdsKept(s1, ops[|ops| - 1]);
      WorksLosesNone(s1, ops[|ops| - 1]);
      NeverSnoc(Loses, s, ops);
    }
  }

  // The id under which a known device is known.
  function IdOf(s: State, h: string): nat
    requires Known(s, h)
  {
    if h in s.devices then s.devices[h].id else s.files[h].id
  }

  lemma DistinctIds(s: State, h: string, g: string)
    requires IdsFit(s) && Known(s, h) && Known(s, g) && h != g
    ensures IdOf(s, h) != IdOf(s, g) && IdOf(s, h) in s.pool
  {}

  /** A new device gets the least id at or above the next one that no device of the pool has. */
  lemma LeastFreeId(s: State, hash: string, base: string, env: AddEnv)
    requires AddDevice(s, hash, base, env).ok
    ensures var o := AddDevice(s, hash, base, env);
      var id := IdOf(o.s, hash);
      && s.nextDeviceId <= id < ID_LIMIT && id !in s.pool && o.s.pool == s.pool + {id}
      && (forall x :: s.nextDeviceId <= x < id ==> x in s.pool)
      && o.s.nextDeviceId == (if id + 1 == ID_LIMIT then 0 else id + 1)
  {}

  /** A set that has just started gives out the least id that the pool does not have at all. */
  lemma LeastIdAfterRestart(s: State, hash: string, base: string, env: AddEnv)
    requires AddDevice(Restart(s), hash, base, env).ok
    ensures var id := IdOf(AddDevice(Restart(s), hash, base, env).s, hash);
      id !in s.pool && forall x :: 0 <= x < id ==> x in s.pool
  {
    LeastFreeId(Restart(s), hash, base, env);
  }

  /** When a save fails after the rename, the id is free again but its record stays on disk: after a restart another
      device takes the id, and the commit makes both known. */
  lemma DuplicateIds(s: State, hash: string, other: string, base: string)
    requires IdsOk(s) && s.newTransactionId == s.transactionId && Loadable(s, base)
    requires !Known(s, hash) && !Known(s, other) && hash != other && hash != base && other != base
    requires s.nextDeviceId == 0 && FreeId(s.pool, 0) < ID_LIMIT
    ensures var failed := AddDevice(s, hash, base, AddEnv(false, false, NotCommitted, false));
      var o := AddDevice(Restart(failed.s), other, base, AddEnv(false, false, Saved, false));
      && !failed.ok && o.ok
      && Known(o.s, hash) && Known(o.s, other) && IdOf(o.s, hash) == IdOf(o.s, other)
  {
    hide FreeId, IdsOk;
    KnownFiles(s, hash, other);
    var id := FreeId(s.pool, 0);
    FreeIdFresh(s.pool, 0);
    FailedAdd(s, hash, base, id);
    var f := AddDevice(s, hash, base, AddEnv(false, false, NotCommitted, false)).s;
    AddAfterRestart(Restart(f), other, base, id);
  }

  lemma KnownFiles(s: State, hash: string, other: string)
    requires IdsOk(s) && !Known(s, hash) && !Known(s, other)
    ensures hash !in s.files && other !in s.files && s.transactionId == s.poolTid
  {}

  lemma FailedAdd(s: State, hash: string, base: string, id: nat)
    requires Loadable(s, base) && hash != base && !Known(s, hash) && s.newTransactionId == s.transactionId
    requires id == FreeId(s.pool, s.nextDeviceId) < ID_LIMIT && id !in s.pool
    ensures var o := AddDevice(s, hash, base, AddEnv(false, false, NotCommitted, false));
      && !o.ok && o.s.pool == s.pool && o.s.poolTid == s.poolTid && o.s.transactionId == s.transactionId
      && o.s.files == s.files[hash := Record(id, s.transactionId + 1)]
  {
    hide FreeId;
    assert s.pool + {id} - {id} == s.pool;
  }

  lemma AddAfterRestart(s: State, hash: string, base: string, id: nat)
    requires s.devices == map[] && s.newTransactionId == s.transactionId == s.poolTid && s.nextDeviceId == 0
    requires Loadable(s, base) && hash != base && hash !in s.files && id == FreeId(s.pool, 0) < ID_LIMIT
    ensures var o := AddDevice(s, hash, base, AddEnv(false, false, Saved, false));
      && o.ok && hash in o.s.devices && o.s.devices[hash].id == id
      && o.s.devices.Keys == {base, hash} && o.s.transactionId == s.transactionId + 1
      && o.s.files == s.files[hash := Record(id, s.transactionId + 1)]
  {
    hide FreeId;
  }

  lemma FreeIdFresh(pool: set<nat>, from: nat)
    ensures FreeId(pool, from) !in pool
  {}

  // ---- mount counts ----

  function CountOf(s: State, h: string): nat {
    if h in s.devices then s.devices[h].mountCount else 0
  }

  /** The set counts m as a mount in use. */
  predicate CountedAt(s: State, m: Mount) {
    CountOf(s, m.hash) > 0 && s.devices[m.hash].mountPath == m.path
  }

  /** A device with a positive count is mounted at exactly its mount path. */
  ghost predicate Counted(s: State) {
    forall h :: h in s.devices && s.devices[h].mountCount > 0 ==> Mount(s.devices[h].mountPath, h) in s.mounts
  }

  /** The last mount at a path, which is the one umount(2) takes away. */
  function TopAt(mounts: seq<Mount>, path: string): Option<Mount> {
    if mounts == [] then None
    else if mounts[|mounts| - 1].path == path then Some(mounts[|mounts| - 1])
    else TopAt(mounts[..|mounts| - 1], path)
  }

  lemma {:induction false} UnmountedTakes(mounts: seq<Mount>, path: string)
    ensures Unmounted(mounts, path).None? <==> forall m :: m in mounts ==> m.path != path
    ensures Unmounted(mounts, path).Some? <==> TopAt(mounts, path).Some?
    ensures Unmounted(mounts, path).Some? ==>
      TopAt(mounts, path).value.path == path &&
      multiset(mounts) == multiset(Unmounted(mounts, path).value) + multiset{TopAt(mounts, path).value}
  {
    if mounts == [] {
    } else {
      var n := |mounts| - 1;
      assert mounts == mounts[..n] + [mounts[n]];
      if mounts[n].path != path {
        UnmountedTakes(mounts[..n], path);
      }
    }
  }

  // What a lookup adds has no count.
  lemma LookupKeepsCounts(s: State, hash: string)
    ensures Lookup(s, hash).active == s.active && Lookup(s, hash).mounts == s.mounts
    ensures forall h :: CountOf(Lookup(s, hash), h) == CountOf(s, h)
    ensures forall h :: h in s.devices ==> h in Lookup(s, hash).devices && Lookup(s, hash).devices[h] == s.devices[h]
    ensures Counted(Lookup(s, hash)) <==> Counted(s)
  {}

  // The uses counted in s' are counted in s, and every mount of s is there.
  ghost predicate FewerUses(s: State, s': State) {
    && (forall h :: CountOf(s', h) > 0 ==> CountOf(s, h) > 0 && s'.devices[h].mountPath == s.devices[h].mountPath)
    && forall m :: m in s.mounts ==> m in s'.mounts
  }

  lemma FewerCounted(s: State, s': State)
    requires Counted(s) && FewerUses(s, s')
    ensures Counted(s')
  {
    forall h | h in s'.devices && s'.devices[h].mountCount > 0
      ensures Mount(s'.devices[h].mountPath, h) in s'.mounts
    {
      assert CountOf(s', h) > 0;
    }
  }

  lemma RegisterTouches(s: State, id: nat, hash: string, save: Save)
    ensures var s' := RegisterDevice(s, id, hash, save).s;
      && s'.mounts == s.mounts && s'.active == s.active && CountOf(s', hash) == 0
      && (forall h :: h in s'.devices && h != hash ==> h in s.devices && s'.devices[h] == s.devices[h])
      && (forall h :: h in s.devices && h != hash ==> h in s'.devices)
  {}

  // A new device has no count, and nothing else about mounts changes.
  lemma AddTouches(s: State, hash: string, base: string, env: AddEnv)
    ensures var s' := AddDevice(s, hash, base, env).s;
      && s'.mounts == s.mounts && s'.active == s.active
      && (forall h :: CountOf(s', h) == CountOf(s, h))
      && forall h :: CountOf(s, h) > 0 ==> s'.devices[h].mountPath == s.devices[h].mountPath
  {
    hide FreeId, Lookup, RegisterDevice, Counted;
    LookupKeepsCounts(s, base);
    var s1 := Lookup(s, base);
    LookupKeepsCounts(s1, hash);
    var s2 := Lookup(s1, hash);
    var id := FreeId(s2.pool, s2.nextDeviceId);
    RegisterTouches(s2.(pool := s2.pool + {id}, nextDeviceId := (id + 1) % ID_LIMIT), id, hash, env.save);
  }

  // What a deletion can change, seen from the looked-up state.
  lemma DeleteTouches(s: State, hash: string, env: DeleteEnv)
    ensures var s1, s' := Lookup(s, hash), DeleteDevice(s, hash, env).s;
      && s'.mounts == s1.mounts
      && (forall h :: h in s1.devices && h != hash ==> h in s'.devices && s'.devices[h] == s1.devices[h])
      && (forall h :: h in s'.devices ==> h in s1.devices && s'.devices[h] == s1.devices[h])
      && (forall h :: h in s1.active && h != hash ==> h in s'.active)
      && (IsMounted(s1, hash) && hash in s1.active ==> s'.devices == s1.devices && hash in s'.active)
  {
    hide Lookup, IsMounted;
    MountsDecide(Lookup(s, hash), hash);
  }

  // Whether a device is mounted depends on the mounts only.
  lemma MountsDecide(s: State, hash: string)
    ensures IsMounted(s.(active := s.active + {hash}), hash) == IsMounted(s, hash)
  {}

  lemma MountTouches(s: State, hash: string, path: string, env: MountEnv)
    ensures var s1, o := Lookup(s, hash), MountDevice(s, hash, path, env);
      && (forall h :: CountOf(o.s, h) == CountOf(s1, h) + if o.ok && h == hash then 1 else 0)
      && o.s.active >= s1.active
      && (forall h :: h in s1.devices && (h != hash || o.s.mounts == s1.mounts) ==>
        h in o.s.devices && o.s.devices[h].mountPath == s1.devices[h].mountPath)
      && (o.s.mounts == s1.mounts ==> CountOf(o.s, hash) > 0 ==> CountOf(s1, hash) > 0)
      && (o.s.mounts != s1.mounts ==>
        && o.ok && hash in o.s.devices && hash in o.s.active && o.s.devices[hash].mountPath == path
        && o.s.mounts == s1.mounts + [Mount(path, hash)] && CountOf(s1, hash) == 0)
  {
    hide Lookup;
    var s1 := Lookup(s, hash);
    assert s1.mounts + [Mount(path, hash)] != s1.mounts;
  }

  // One use less; only the last use touches the mounts.
  lemma UnmountTouches(s: State, hash: string, env: UnmountEnv)
    ensures var s1, o := Lookup(s, hash), UnmountDevice(s, hash, env);
      && (CountOf(s1, hash) == 0 ==> o == Out(s1, false))
      && (CountOf(s1, hash) > 0 ==>
        && CountOf(o.s, hash) == CountOf(s1, hash) - 1
        && (forall h :: h in s1.devices && h != hash ==> h in o.s.devices && o.s.devices[h] == s1.devices[h])
        && o.s.devices.Keys == s1.devices.Keys)
      && (CountOf(s1, hash) > 1 ==>
        o.ok && o.s.mounts == s1.mounts && o.s.active == s1.active &&
          o.s.devices[hash].mountPath == s1.devices[hash].mountPath)
      && (CountOf(s1, hash) == 1 ==>
        var rest := Unmounted(s1.mounts, s1.devices[hash].mountPath);
        && (forall h :: h in s1.active && h != hash ==> h in o.s.active)
        && o.s.mounts == (if env.unmountFails || rest.None? then s1.mounts else rest.value)
        && (o.ok ==> !env.unmountFails && rest.Some?)
        && (o.ok ==> !(hash in s1.active && IsMounted(s1.(mounts := rest.value), hash))))
  {
    hide Lookup, Unmounted, IsMounted;
    var s1 := Lookup(s, hash);
    if CountOf(s1, hash) == 1 {
      var info := s1.devices[hash].(mountCount := 0);
      var rest := Unmounted(s1.mounts, info.mountPath);
      if rest.Some? {
        SameMounts(s1.(devices := s1.devices[hash := info], mounts := rest.value), s1.(mounts := rest.value), hash);
      }
    }
  }

  lemma SameMounts(s: State, s': State, hash: string)
    requires s.mounts == s'.mounts
    ensures IsMounted(s, hash) == IsMounted(s', hash)
  {}

  /** The operation is the last unmount of a device, and umount(2) takes away the only mount of another device that
      is in use: the one mounted last at the same path. */
  predicate Steals(s: State, op: Op) {
    op.Unmount? &&
    var s1 := Lookup(s, op.hash);
    CountOf(s1, op.hash) == 1 && !op.unmountEnv.unmountFails &&
    var top := TopAt(s1.mounts, s1.devices[op.hash].mountPath);
    top.Some? && top.value.hash != op.hash && CountedAt(s1, top.value) && multiset(s1.mounts)[top.value] == 1
  }

  lemma StatusTouches(s: State, hash: string, env: StatusEnv)
    ensures var s1, s' := Lookup(s, hash), GetDeviceStatus(s, hash, env).s;
      s' == s1.(active := s'.active) && s'.active >= s1.active && FewerUses(s1, s')
  {
    hide Lookup;
  }

  lemma UnmountCounted(s: State, op: Op)
    requires Counted(s) && op.Unmount?
    ensures Counted(Apply(s, op).s) <==> !Steals(s, op)
  {
    hide Lookup, Unmounted, TopAt, UnmountDevice, Counted;
    var hash, s1, s' := op.hash, Lookup(s, op.hash), Apply(s, op).s;
    LookupKeepsCounts(s, hash);
    UnmountTouches(s, hash, op.unmountEnv);
    var path := if CountOf(s1, hash) > 0 then s1.devices[hash].mountPath else "";
    UnmountedTakes(s1.mounts, path);
    if CountOf(s1, hash) == 1 && !op.unmountEnv.unmountFails && Unmounted(s1.mounts, path).Some? {
      LastUseCounted(s1, s', hash);
    } else {
      FewerCounted(s1, s');
    }
  }

  // The last use of hash is gone, and with it the last mount at its path.
  lemma LastUseCounted(s: State, s': State, hash: string)
    requires Counted(s) && CountOf(s, hash) == 1 && CountOf(s', hash) == 0
    requires Unmounted(s.mounts, s.devices[hash].mountPath) == Some(s'.mounts)
    requires s'.devices.Keys == s.devices.Keys
    requires forall h :: h in s.devices && h != hash ==> h in s'.devices && s'.devices[h] == s.devices[h]
    ensures var top := TopAt(s.mounts, s.devices[hash].mountPath);
      top.Some? &&
      (Counted(s') <==> top.value.hash == hash || !CountedAt(s, top.value) || multiset(s.mounts)[top.value] != 1)
  {
    hide Unmounted, TopAt;
    UnmountedTakes(s.mounts, s.devices[hash].mountPath);
    var top := TopAt(s.mounts, s.devices[hash].mountPath).value;
    assert forall m :: m in s.mounts <==> m in s'.mounts || m == top by {
      assert forall m :: m in s.mounts <==> multiset(s.mounts)[m] > 0;
      assert forall m :: m in s'.mounts <==> multiset(s'.mounts)[m] > 0;
    }
    assert top in s'.mounts <==> multiset(s.mounts)[top] > 1;
    if top.hash != hash && CountedAt(s, top) {
      assert s'.devices[top.hash] == s.devices[top.hash];
      assert top == Mount(s.devices[top.hash].mountPath, top.hash);
    }
  }

  /** Whatever fails, an operation keeps every device with a positive count mounted at exactly its mount path if and
      only if it does not steal a mount. */
  lemma CountedKept(s: State, op: Op)
    requires Counted(s)
    ensures Counted(Apply(s, op).s) <==> !Steals(s, op)
  {
    hide Counted, AddDevice, DeleteDevice, MountDevice, UnmountDevice, GetDeviceStatus, Lookup, FewerUses;
    match op
    case Add(hash, base, env) =>
      AddTouches(s, hash, base, env);
      AddCounted(s, Apply(s, op).s);
    case Remove(hash, env) =>
      LookupKeepsCounts(s, hash);
      DeleteTouches(s, hash, env);
      DeleteCounted(Lookup(s, hash), Apply(s, op).s);
    case MountAt(hash, path, env) =>
      LookupKeepsCounts(s, hash);
      MountTouches(s, hash, path, env);
      MountCounted(Lookup(s, hash), Apply(s, op).s, hash);
    case Unmount(hash, env) => UnmountCounted(s, op);
    case Has(hash) => LookupKeepsCounts(s, hash);
    case Status(hash, env) =>
      LookupKeepsCounts(s, hash);
      StatusTouches(s, hash, env);
      FewerCounted(Lookup(s, hash), Apply(s, op).s);
    case Reboot => NoneCounted(Apply(s, op).s);
  }

  lemma AddCounted(s: State, s': State)
    requires Counted(s) && s'.mounts == s.mounts && forall h :: CountOf(s', h) == CountOf(s, h)
    requires forall h :: CountOf(s', h) > 0 && CountOf(s, h) > 0 ==> s'.devices[h].mountPath == s.devices[h].mountPath
    ensures Counted(s')
  {
    FewerCounted(s, s');
  }

  lemma DeleteCounted(s: State, s': State)
    requires Counted(s) && s'.mounts == s.mounts
    requires forall h :: h in s'.devices ==> h in s.devices && s'.devices[h] == s.devices[h]
    ensures Counted(s')
  {
    FewerCounted(s, s');
  }

  lemma MountCounted(s: State, s': State, hash: string)
    requires Counted(s) && forall h :: h != hash ==> CountOf(s', h) == CountOf(s, h)
    requires forall h :: h in s.devices && (h != hash || s'.mounts == s.mounts) ==>
      h in s'.devices && s'.devices[h].mountPath == s.devices[h].mountPath
    requires s'.mounts == s.mounts ==> CountOf(s', hash) > 0 ==> CountOf(s, hash) > 0
    requires s'.mounts != s.mounts ==>
      hash in s'.devices && s'.mounts == s.mounts + [Mount(s'.devices[hash].mountPath, hash)]
    ensures Counted(s')
  {
    forall h | h in s'.devices && s'.devices[h].mountCount > 0
      ensures Mount(s'.devices[h].mountPath, h) in s'.mounts
    {
      assert CountOf(s', h) > 0;
    }
  }

  lemma NoneCounted(s: State)
    requires s.devices == map[]
    ensures Counted(s)
  {}

  /** Over every run, whatever fails, a positive count means mounted at exactly the mount path in every state if and
      only if no unmount steals a mount. */
  lemma CountedAlways(s: State, ops: seq<Op>)
    requires Counted(s)
    ensures AlwaysHolds(Counted, s, ops) <==> NeverDone(Steals, s, ops)
  {
    hide Counted, Steals, Apply;
    forall x, op | Counted(x)
      ensures Counted(Apply(x, op).s) <==> !Steals(x, op)
    {
      CountedKept(x, op);
    }
    HoldsUntilDone(Counted, Steals, s, ops);
  }

  // ---- what the operations answer ----

  /** A mount that succeeds leaves the device mounted at the path asked for. A device in use is mounted again just
      at the path where it is, and a refusal changes no count and no mount. */
  lemma MountAnswers(s: State, h: string, path: string, env: MountEnv)
    requires Counted(s)
    ensures var o := MountDevice(s, h, path, env);
      && (o.ok ==>
        && Known(s, h) && CountOf(o.s, h) == CountOf(s, h) + 1
        && Mount(path, h) in o.s.mounts && o.s.devices[h].mountPath == path)
      && (o.ok && CountOf(s, h) == 0 ==> h in o.s.active)
      && (Known(s, h) && CountOf(s, h) == 0 && !env.activateFails ==> h in o.s.active)
      && (CountOf(s, h) > 0 ==> (o.ok <==> path == s.devices[h].mountPath))
      && (!o.ok ==> o.s.mounts == s.mounts && CountOf(o.s, h) == CountOf(s, h))
      && (forall g :: g != h ==> CountOf(o.s, g) == CountOf(s, g))
  {
    hide Lookup, Counted;
    LookupKeepsCounts(s, h);
    LookupKnown(s, h);
    var s1 := Lookup(s, h);
    if CountOf(s1, h) > 0 {
      CountedHas(s1, h);
    }
  }

  lemma LookupKnown(s: State, h: string)
    ensures h in Lookup(s, h).devices <==> Known(s, h)
    ensures Lookup(s, h) == s.(devices := Lookup(s, h).devices)
  {}

  /** An unmount takes one use off. The last one that succeeds takes a mount at the device's path away and leaves
      the device inactive, and not mounted if it was active; a device with no use is refused. */
  lemma UnmountAnswers(s: State, h: string, env: UnmountEnv)
    ensures var o := UnmountDevice(s, h, env);
      && (CountOf(s, h) == 0 ==> !o.ok && o.s.mounts == s.mounts && o.s.active == s.active && CountOf(o.s, h) == 0)
      && (CountOf(s, h) > 0 ==> CountOf(o.s, h) == CountOf(s, h) - 1)
      && (CountOf(s, h) > 1 ==> o.ok && o.s.mounts == s.mounts && o.s.active == s.active)
      && (CountOf(s, h) == 1 && o.ok ==>
        && Unmounted(s.mounts, s.devices[h].mountPath) == Some(o.s.mounts)
        && h !in o.s.active && (h in s.active ==> !IsMounted(o.s, h)) && o.s.devices[h].mountPath == "")
      && (forall g :: g != h ==> CountOf(o.s, g) == CountOf(s, g))
  {
    hide Lookup, Unmounted;
    LookupKeepsCounts(s, h);
  }

  /** An add that succeeds had a known base and an unknown device, which is now known under a record with the
      transaction id the set and the pool move to. A known device, or an unknown base, is refused. */
  lemma AddAnswers(s: State, h: string, base: string, env: AddEnv)
    ensures var o := AddDevice(s, h, base, env);
      && (o.ok ==> Known(s, base) && (Known(s, h) ==> h == base) && h !in Lookup(Lookup(s, base), h).devices)
      && (o.ok ==>
        && h in o.s.devices && CountOf(o.s, h) == 0 && h in o.s.files
        && o.s.files[h] == Record(o.s.devices[h].id, s.newTransactionId + 1)
        && o.s.devices[h].tid == s.newTransactionId + 1)
      && (o.ok && TidsOk(s) ==> o.s.transactionId == o.s.poolTid == s.newTransactionId + 1)
      && (!Known(s, base) || Known(s, h) ==> !o.ok && o.s.files == s.files && o.s.pool == s.pool)
  {
    hide FreeId, Lookup;
    LookupKnown(s, base);
    var s1 := Lookup(s, base);
    LookupKnown(s1, h);
    LookupOthers(s, base, h);
  }

  lemma LookupOthers(s: State, h: string, g: string)
    ensures Known(Lookup(s, h), g) <==> Known(s, g)
  {}

  /** A removal that succeeds had a known device. Its record and its id are gone and it is inactive; no other device is
      forgotten. An unknown device, or an active one that is mounted, is refused with its id kept. */
  lemma DeleteAnswers(s: State, h: string, env: DeleteEnv)
    ensures var o := DeleteDevice(s, h, env);
      && (o.ok ==>
        && Known(s, h) && !Known(o.s, h) && h !in o.s.files && IdOf(s, h) !in o.s.pool && h !in o.s.active
        && o.s.newTransactionId == s.newTransactionId + 1)
      && (forall g :: g != h ==> (Known(o.s, g) <==> Known(s, g)))
      && (!Known(s, h) ==> o == Out(s, false))
      && (h in s.active && IsMounted(s, h) ==> !o.ok && o.s.pool == s.pool && o.s.files == s.files)
  {
    hide IsMounted;
    MountsDecide(Lookup(s, h), h);
    SameMounts(Lookup(s, h), s, h);
  }

  lemma StatusAnswers(s: State, h: string, env: StatusEnv)
    ensures var o := GetDeviceStatus(s, h, env);
      && (o.ok <==> Known(s, h) && !env.statusFails && (h in s.active || !env.activateFails))
      && (o.ok ==> h in o.s.active)
      && (forall g :: g != h ==> (g in o.s.active <==> g in s.active))
  {}

  // ---- a path of its own for every device ----

  /** No two devices are mounted at one path. */
  ghost predicate PathsApart(s: State) {
    forall m, n :: m in s.mounts && n in s.mounts && m.path == n.path ==> m.hash == n.hash
  }

  /** The operation does not mount a device where another one is mounted. */
  predicate OwnPath(s: State, op: Op) {
    op.MountAt? ==> forall m :: m in s.mounts && m.path == op.path ==> m.hash == op.hash
  }

  /** Every mount of the run is at a path of the device's own. */
  ghost predicate OwnPaths(s: State, ops: seq<Op>) {
    forall i :: 0 <= i < |ops| ==> OwnPath(RunAll(s, ops[..i]), ops[i])
  }

  lemma OwnNotStolen(s: State, op: Op)
    requires Counted(s) && PathsApart(s)
    ensures !Steals(s, op)
  {
    hide Lookup, TopAt;
    if op.Unmount? && CountOf(Lookup(s, op.hash), op.hash) == 1 {
      LookupKeepsCounts(s, op.hash);
      var info := Lookup(s, op.hash).devices[op.hash];
      UnmountedTakes(s.mounts, info.mountPath);
      assert Mount(info.mountPath, op.hash) in s.mounts;
      assert forall m :: m in s.mounts <==> multiset(s.mounts)[m] > 0;
    }
  }

  lemma PathsKept(s: State, op: Op)
    requires PathsApart(s) && OwnPath(s, op)
    ensures PathsApart(Apply(s, op).s)
  {
    hide AddDevice, DeleteDevice, MountDevice, UnmountDevice, Lookup, Counted, Unmounted, TopAt;
    match op
    case Add(hash, base, env) => AddTouches(s, hash, base, env);
    case Remove(hash, env) =>
      LookupKeepsCounts(s, hash);
      DeleteTouches(s, hash, env);
    case MountAt(hash, path, env) =>
      LookupKeepsCounts(s, hash);
      MountTouches(s, hash, path, env);
    case Unmount(hash, env) =>
      LookupKeepsCounts(s, hash);
      UnmountTouches(s, hash, env);
      UnmountSubset(Lookup(s, hash), Apply(s, op).s, hash);
    case Has(hash) => LookupKeepsCounts(s, hash);
    case Status(hash, env) =>
      LookupKeepsCounts(s, hash);
      StatusTouches(s, hash, env);
    case Reboot =>
  }

  lemma UnmountSubset(s: State, s': State, hash: string)
    requires s'.mounts == s.mounts ||
      (hash in s.devices && Unmounted(s.mounts, s.devices[hash].mountPath) == Some(s'.mounts))
    ensures forall m :: m in s'.mounts ==> m in s.mounts
  {
    hide Unmounted, TopAt;
    if s'.mounts != s.mounts {
      UnmountedTakes(s.mounts, s.devices[hash].mountPath);
      forall m | m in s'.mounts
        ensures m in s.mounts
      {
        assert multiset(s'.mounts)[m] > 0;
        assert multiset(s.mounts)[m] > 0;
      }
    }
  }

  /** In particular, when no device is ever mounted where another one is. */
  lemma {:induction false} MountsAlways(s: State, ops: seq<Op>)
    requires Counted(s) && PathsApart(s) && OwnPaths(s, ops)
    ensures NeverDone(Steals, s, ops)
    ensures Counted(RunAll(s, ops)) && PathsApart(RunAll(s, ops))
  {
    hide Counted, PathsApart, Apply, OwnPath, Steals;
    if ops == [] {
    } else {
      var n := |ops| - 1;
      forall i | 0 <= i < n
        ensures OwnPath(RunAll(s, ops[..n][..i]), ops[..n][i])
      {
        assert ops[..n][..i] == ops[..i];
      }
      MountsAlways(s, ops[..n]);
      var s1 := RunAll(s, ops[..n]);
      OwnNotStolen(s1, ops[n]);
      NeverSnoc(Steals, s, ops);
      CountedKept(s1, ops[n]);
      PathsKept(s1, ops[n]);
    }
  }

  lemma MountWorks(s: State, h: string, path: string)
    requires h in s.devices && s.devices[h].mountCount == 0
    ensures var o := MountDevice(s, h, path, MountEnv(false, false, false));
      && o.ok && o.s.mounts == s.mounts + [Mount(path, h)]
      && o.s.devices == s.devices[h := s.devices[h].(mountCount := 1, mountPath := path)]
  {}

  lemma UnmountBusy(s: State, h: string, path: string, below: seq<Mount>, g: string)
    requires h in s.devices && s.devices[h].mountCount == 1 && s.devices[h].mountPath == path
    requires s.mounts == below + [Mount(path, g)]
    ensures var o := UnmountDevice(s, h, UnmountEnv(false, false, true));
      o.s.mounts == below && forall x :: x != h ==> CountOf(o.s, x) == CountOf(s, x)
  {
    hide IsMounted;
    assert s.mounts[..|below|] == below;
  }

  lemma ThreeOps(s: State, a: Op, c: Op, e: Op)
    ensures RunAll(s, [a, c, e]) == Apply(Apply(Apply(s, a).s, c).s, e).s
  {
    hide Apply;
    var ops := [a, c, e];
    assert ops[..2] == [a, c] && ops[..2][..1] == [a] && ops[..2][..1][..0] == [];
    assert RunAll(s, ops[..2][..1]) == Apply(s, a).s;
    assert RunAll(s, ops[..2]) == Apply(Apply(s, a).s, c).s;
  }

  /** A run that steals: two devices mounted at one path, and the first unmounted. The other one is then in use and
      mounted nowhere. */
  lemma SharedPath(s: State, h: string, g: string, path: string)
    requires s.mounts == [] && h in s.devices && g in s.devices && h != g
    requires s.devices[h].mountCount == 0 && s.devices[g].mountCount == 0
    ensures var works, busy := MountEnv(false, false, false), UnmountEnv(false, false, true);
      var s' := RunAll(s, [MountAt(h, path, works), MountAt(g, path, works), Unmount(h, busy)]);
      CountOf(s', g) == 1 && s'.mounts == [Mount(path, h)]
  {
    hide MountDevice, UnmountDevice, RunAll;
    var works := MountEnv(false, false, false);
    ThreeOps(s, MountAt(h, path, works), MountAt(g, path, works), Unmount(h, UnmountEnv(false, false, true)));
    MountWorks(s, h, path);
    var s1 := MountDevice(s, h, path, works).s;
    assert s1.mounts == [Mount(path, h)];
    MountWorks(s1, g, path);
    var s2 := MountDevice(s1, g, path, works).s;
    UnmountBusy(s2, h, path, s1.mounts, g);
  }

  // ---- the balance of mounts and unmounts ----

  ghost predicate Distinct(mounts: seq<Mount>) {
    forall i, j :: 0 <= i < j < |mounts| ==> mounts[i] != mounts[j]
  }

  /** Every mount is that of a device in use, which is active. */
  ghost predicate InUse(s: State) {
    forall m :: m in s.mounts ==> CountedAt(s, m) && m.hash in s.active
  }

  /** The device is mounted exactly when its count is positive, at its mount path, once, and is active then. */
  ghost predicate Exact(s: State) {
    Counted(s) && InUse(s) && Distinct(s.mounts)
  }

  /** The daemon does not start again, and the last unmount of a device, if it is one, succeeds: the kernel unmounts its
      path and then deactivates it. */
  predicate UnmountWorks(s: State, op: Op) {
    !op.Reboot? && (op.Unmount? && CountOf(s, op.hash) == 1 ==> Apply(s, op).ok)
  }

  ghost predicate UnmountsWork(s: State, ops: seq<Op>) {
    forall i :: 0 <= i < |ops| ==> UnmountWorks(RunAll(s, ops[..i]), ops[i])
  }

  /** What the operation does to the count of h when it succeeds. */
  function Change(s: State, op: Op, h: string): int {
    if !Apply(s, op).ok then 0
    else if op.MountAt? && op.hash == h then 1
    else if op.Unmount? && op.hash == h then -1
    else 0
  }

  /** Successful mounts less successful unmounts of h. */
  function Balance(s: State, ops: seq<Op>, h: string): int {
    if ops == [] then 0
    else Balance(s, ops[..|ops| - 1], h) + Change(RunAll(s, ops[..|ops| - 1]), ops[|ops| - 1], h)
  }

  lemma {:induction false} DistinctOnce(mounts: seq<Mount>)
    ensures Distinct(mounts) <==> forall m :: m in mounts ==> multiset(mounts)[m] == 1
  {
    if mounts == [] {
    } else {
      var n := |mounts| - 1;
      DistinctOnce(mounts[..n]);
      assert mounts == mounts[..n] + [mounts[n]];
      if Distinct(mounts) {
        assert mounts[n] !in mounts[..n];
      } else if Distinct(mounts[..n]) {
        var i :| 0 <= i < n && mounts[i] == mounts[n];
        assert mounts[..n][i] == mounts[n];
        assert multiset(mounts)[mounts[n]] > 1;
      } else {
        var m :| m in mounts[..n] && multiset(mounts[..n])[m] != 1;
        assert multiset(mounts)[m] > 1;
      }
    }
  }

  lemma ExactLookup(s: State, hash: string)
    requires Exact(s)
    ensures Exact(Lookup(s, hash))
    ensures forall h :: CountOf(Lookup(s, hash), h) == CountOf(s, h)
  {
    hide Lookup, Counted;
    LookupKeepsCounts(s, hash);
  }

  lemma ExactAdd(s: State, op: Op)
    requires Exact(s) && op.Add?
    ensures Exact(Apply(s, op).s)
    ensures forall h :: CountOf(Apply(s, op).s, h) == CountOf(s, h)
  {
    hide AddDevice, Counted;
    AddTouches(s, op.hash, op.base, op.addEnv);
    AddCounted(s, Apply(s, op).s);
  }

  // A mounted device is active and cannot be removed, so only devices without a count go.
  lemma ExactRemove(s: State, hash: string, env: DeleteEnv)
    requires Exact(s)
    ensures Exact(DeleteDevice(s, hash, env).s)
    ensures forall h :: CountOf(DeleteDevice(s, hash, env).s, h) == CountOf(s, h)
  {
    hide Lookup, IsMounted, DeleteDevice, Counted;
    ExactLookup(s, hash);
    var s1, s' := Lookup(s, hash), DeleteDevice(s, hash, env).s;
    CountedMounted(s1, hash);
    DeleteTouches(s, hash, env);
    DeleteCounted(s1, s');
    forall m | m in s'.mounts
      ensures CountedAt(s', m) && m.hash in s'.active
    {
      MountedIs(s1, m);
    }
  }

  lemma MountedIs(s: State, m: Mount)
    requires m in s.mounts
    ensures IsMounted(s, m.hash)
  {}

  lemma CountedMounted(s: State, h: string)
    requires Exact(s)
    ensures CountOf(s, h) > 0 <==> IsMounted(s, h)
    ensures CountOf(s, h) > 0 ==> h in s.active
  {
    if CountOf(s, h) > 0 {
      assert Mount(s.devices[h].mountPath, h) in s.mounts;
    }
  }

  lemma ExactMount(s: State, hash: string, path: string, env: MountEnv)
    requires Exact(s)
    ensures var o := MountDevice(s, hash, path, env);
      && Exact(o.s)
      && forall h :: CountOf(o.s, h) == CountOf(s, h) + if o.ok && h == hash then 1 else 0
  {
    hide Lookup, Counted, MountDevice;
    ExactLookup(s, hash);
    MountTouches(s, hash, path, env);
    var s1, s' := Lookup(s, hash), MountDevice(s, hash, path, env).s;
    MountCounted(s1, s', hash);
    if s'.mounts == s1.mounts {
      SameUses(s1, s');
    } else {
      FirstUse(s1, s', hash);
    }
  }

  // A device that was not mounted anywhere is now.
  lemma FirstUse(s: State, s': State, hash: string)
    requires InUse(s) && Distinct(s.mounts) && CountOf(s, hash) == 0 && CountOf(s', hash) > 0
    requires hash in s'.active && s'.active >= s.active
    requires s'.mounts == s.mounts + [Mount(s'.devices[hash].mountPath, hash)]
    requires forall h :: h != hash ==> CountOf(s', h) == CountOf(s, h)
    requires forall h :: h in s.devices && h != hash ==>
      h in s'.devices && s'.devices[h].mountPath == s.devices[h].mountPath
    ensures InUse(s') && Distinct(s'.mounts)
  {
    assert Mount(s'.devices[hash].mountPath, hash) !in s.mounts by {
      assert !CountedAt(s, Mount(s'.devices[hash].mountPath, hash));
    }
  }

  lemma ExactUnmount(s: State, op: Op)
    requires Exact(s) && op.Unmount? && UnmountWorks(s, op)
    ensures var o := Apply(s, op);
      && Exact(o.s)
      && forall h :: CountOf(o.s, h) == CountOf(s, h) - if o.ok && h == op.hash then 1 else 0
  {
    hide Lookup, Unmounted, Counted, UnmountDevice, InUse;
    var s1, s' := Lookup(s, op.hash), Apply(s, op).s;
    ExactLookup(s, op.hash);
    UnmountTouches(s, op.hash, op.unmountEnv);
    if CountOf(s1, op.hash) > 1 {
      FewerCounted(s1, s');
      SameUses(s1, s');
    } else if CountOf(s1, op.hash) == 1 {
      LastUnmount(s1, s', op.hash);
    }
  }

  lemma SameUses(s: State, s': State)
    requires InUse(s) && s'.mounts == s.mounts && s'.active >= s.active
    requires forall h :: CountOf(s, h) > 0 ==>
      CountOf(s', h) > 0 && s'.devices[h].mountPath == s.devices[h].mountPath
    ensures InUse(s')
  {}

  // When the deactivation succeeds, the mount that the last unmount took away was that of the device itself.
  lemma LastUnmount(s: State, s': State, hash: string)
    requires Exact(s) && CountOf(s, hash) == 1 && CountOf(s', hash) == 0
    requires Unmounted(s.mounts, s.devices[hash].mountPath) == Some(s'.mounts)
    requires !(hash in s.active && IsMounted(s.(mounts := s'.mounts), hash))
    requires s'.devices.Keys == s.devices.Keys
    requires forall h :: h in s.devices && h != hash ==> h in s'.devices && s'.devices[h] == s.devices[h]
    requires forall h :: h in s.active && h != hash ==> h in s'.active
    ensures Exact(s')
  {
    hide Unmounted, TopAt, Distinct, Counted, IsMounted;
    var path := s.devices[hash].mountPath;
    CountedMounted(s, hash);
    LastUseCounted(s, s', hash);
    OneLess(s.mounts, s'.mounts, path);
    var top := TopAt(s.mounts, path).value;
    if top != Mount(path, hash) {
      assert Mount(path, hash) in s.mounts by {
        CountedHas(s, hash);
      }
      MountedIs(s.(mounts := s'.mounts), Mount(path, hash));
      assert false;
    }
    forall m | m in s'.mounts
      ensures CountedAt(s', m) && m.hash in s'.active
    {
      assert CountedAt(s, m);
    }
  }

  lemma CountedHas(s: State, h: string)
    requires Counted(s) && CountOf(s, h) > 0
    ensures Mount(s.devices[h].mountPath, h) in s.mounts
  {}

  lemma OneLess(mounts: seq<Mount>, rest: seq<Mount>, path: string)
    requires Distinct(mounts) && Unmounted(mounts, path) == Some(rest)
    ensures TopAt(mounts, path).Some? && Distinct(rest)
    ensures forall m :: m in rest <==> m in mounts && m != TopAt(mounts, path).value
  {
    hide Unmounted, TopAt, Distinct;
    UnmountedTakes(mounts, path);
    DistinctOnce(mounts);
    DistinctOnce(rest);
    forall m
      ensures m in rest <==> m in mounts && m != TopAt(mounts, path).value
      ensures m in rest ==> multiset(rest)[m] == 1
    {
      assert m in rest <==> multiset(rest)[m] > 0;
      assert m in mounts <==> multiset(mounts)[m] > 0;
    }
  }

  lemma ExactStatus(s: State, hash: string, env: StatusEnv)
    requires Exact(s)
    ensures Exact(GetDeviceStatus(s, hash, env).s)
    ensures forall h :: CountOf(GetDeviceStatus(s, hash, env).s, h) == CountOf(s, h)
  {
    hide Lookup, Counted, GetDeviceStatus, FewerUses;
    ExactLookup(s, hash);
    StatusTouches(s, hash, env);
    FewerCounted(Lookup(s, hash), GetDeviceStatus(s, hash, env).s);
  }

  lemma ExactKept(s: State, op: Op, h: string)
    requires Exact(s) && UnmountWorks(s, op)
    ensures Exact(Apply(s, op).s)
    ensures CountOf(Apply(s, op).s, h) == CountOf(s, h) + Change(s, op, h)
  {
    hide Exact, AddDevice, DeleteDevice, MountDevice, UnmountDevice, Lookup;
    match op
    case Add(_, _, _) => ExactAdd(s, op);
    case Remove(hash, env) => ExactRemove(s, hash, env);
    case MountAt(hash, path, env) => ExactMount(s, hash, path, env);
    case Unmount(_, _) => ExactUnmount(s, op);
    case Has(hash) => ExactLookup(s, hash);
    case Status(hash, env) =>
      ExactLookup(s, hash);
      ExactStatus(s, hash, env);
  }

  /** While the kernel's unmounts and the deactivations after them succeed, wherever devices are mounted, the count
      of every device is its successful mounts less its successful unmounts, and it is mounted exactly when that is
      positive. */
  lemma {:induction false} CountIsBalance(s: State, ops: seq<Op>, h: string)
    requires Exact(s) && UnmountsWork(s, ops)
    ensures Exact(RunAll(s, ops))
    ensures CountOf(RunAll(s, ops), h) == CountOf(s, h) + Balance(s, ops, h)
    ensures CountOf(RunAll(s, ops), h) > 0 <==> IsMounted(RunAll(s, ops), h)
  {
    hide Apply, UnmountWorks, Change, Exact, IsMounted;
    if ops != [] {
      var n := |ops| - 1;
      forall i | 0 <= i < n
        ensures UnmountWorks(RunAll(s, ops[..n][..i]), ops[..n][i])
      {
        assert ops[..n][..i] == ops[..i];
      }
      CountIsBalance(s, ops[..n], h);
      ExactKept(RunAll(s, ops[..n]), ops[n], h);
    }
    CountedMounted(RunAll(s, ops), h);
  }
}
