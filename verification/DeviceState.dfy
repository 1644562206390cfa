/** The operations of a DeviceSet (devmapper/deviceset.go) one at a time, as functions of its state: what the set
    keeps in memory, its metadata files, and the kernel's thin pool, active devices and mounts. What calls into the
    kernel and the file system return is a parameter of each operation.
  */
module DeviceState {
  import opened Wrappers

  datatype Info = Info(id: nat, tid: nat, mountCount: nat, mountPath: string)

  datatype Record = Record(id: nat, tid: nat)

  datatype Mount = Mount(path: string, hash: string)

  datatype State = State(
    devices: map<string, Info>,
    transactionId: nat,
    newTransactionId: nat,
    nextDeviceId: nat,
    files: map<string, Record>,  // the metadata directory
    pool: set<nat>,              // the device ids the thin pool has
    poolTid: nat,                // the transaction id the thin pool has
    active: set<string>,         // the devices device-mapper has activated
    mounts: seq<Mount>)          // oldest first

  datatype Out = Out(s: State, ok: bool)

  const ID_LIMIT: nat := 0x100_0000

  /** How a save ends: before the rename, between the rename and the update of the pool, or well. */
  datatype Save = NotRenamed | NotCommitted | Saved

  // ---- looking a device up ----

  /** A record with a transaction id the set has not reached was lost in a crash. */
  predicate Loadable(s: State, hash: string) {
    hash in s.files && s.files[hash].tid <= s.transactionId
  }

  predicate Known(s: State, hash: string) {
    hash in s.devices || Loadable(s, hash)
  }

  /** lookupDevice: a known device is in the map afterwards. */
  function Lookup(s: State, hash: string): State {
    if hash !in s.devices && Loadable(s, hash) then
      s.(devices := s.devices[hash := Info(s.files[hash].id, s.files[hash].tid, 0, "")])
    else s
  }

  // ---- saving and registering ----

  function SaveMetadata(s: State, hash: string, info: Info, save: Save): Out {
    if save.NotRenamed? then Out(s, false)
    else
      var s1 := s.(files := s.files[hash := Record(info.id, info.tid)]);
      if s1.newTransactionId == s1.transactionId then Out(s1, true)
      else if save.NotCommitted? || s1.poolTid != s1.transactionId then Out(s1, false)
      else Out(s1.(poolTid := s1.newTransactionId, transactionId := s1.newTransactionId), true)
  }

  function RegisterDevice(s: State, id: nat, hash: string, save: Save): Out {
    var info := Info(id, s.newTransactionId + 1, 0, "");
    var s1 := s.(newTransactionId := s.newTransactionId + 1, devices := s.devices[hash := info]);
    var o := SaveMetadata(s1, hash, info, save);
    if o.ok then o else Out(o.s.(devices := o.s.devices - {hash}), false)
  }

  // ---- device ids ----

  function AtLeast(pool: set<nat>, id: nat): set<nat> {
    set x | x in pool && x >= id
  }

  /** The id the search that starts at id ends with: the least one the pool does not have. */
  function FreeId(pool: set<nat>, id: nat): (r: nat)
    ensures r >= id && r !in pool
    ensures forall x :: id <= x < r ==> x in pool
    decreases AtLeast(pool, id)
  {
    if id in pool then
      assert AtLeast(pool, id + 1) < AtLeast(pool, id) by {
        assert id in AtLeast(pool, id);
      }
      FreeId(pool, id + 1)
    else id
  }

  /** resumeFails: the snapshot is there, but its base, suspended because it was active, cannot be resumed. */
  datatype AddEnv = AddEnv(snapFails: bool, resumeFails: bool, save: Save, undoFails: bool)

  function AddDevice(s: State, hash: string, base: string, env: AddEnv): Out {
    var s1 := Lookup(s, base);
    if base !in s1.devices then Out(s1, false)
    else
      var s2 := Lookup(s1, hash);
      if hash in s2.devices then Out(s2, false)
      else
        var id := FreeId(s2.pool, s2.nextDeviceId);
        if env.snapFails || id >= ID_LIMIT then Out(s2, false)
        else if base in s2.active && env.resumeFails then Out(s2.(pool := s2.pool + {id}), false)
        else
          var s3 := s2.(pool := s2.pool + {id}, nextDeviceId := (id + 1) % ID_LIMIT);
          var o := RegisterDevice(s3, id, hash, env.save);
          if o.ok || env.undoFails then o else Out(o.s.(pool := o.s.pool - {id}), false)
  }

  // ---- deleting ----

  predicate IsMounted(s: State, hash: string) {
    exists m :: m in s.mounts && m.hash == hash
  }

  /** removeDeviceAndWait: the kernel does not remove a mounted device. */
  function RemoveActive(s: State, hash: string, fails: bool): Out {
    if fails || IsMounted(s, hash) then Out(s, false) else Out(s.(active := s.active - {hash}), true)
  }

  datatype DeleteEnv = DeleteEnv(discardActivates: bool, removeFails: bool, deleteFails: bool, metadataFails: bool)

  function DeleteDevice(s: State, hash: string, env: DeleteEnv): Out {
    var s1 := Lookup(s, hash);
    if hash !in s1.devices then Out(s1, false)
    else
      var info := s1.devices[hash];
      var s2 := if env.discardActivates then s1.(active := s1.active + {hash}) else s1;
      var r := if hash in s2.active then RemoveActive(s2, hash, env.removeFails) else Out(s2, true);
      if !r.ok || env.deleteFails then Out(r.s, false)
      else
        var s3 := r.s.(pool := r.s.pool - {info.id}, newTransactionId := r.s.newTransactionId + 1,
                       devices := r.s.devices - {hash});
        if env.metadataFails then Out(s3.(devices := s3.devices[hash := info]), false)
        else Out(s3.(files := s3.files - {hash}), true)
  }

  // ---- mounting ----

  datatype MountEnv = MountEnv(activateFails: bool, probeFails: bool, mountFails: bool)

  function MountDevice(s: State, hash: string, path: string, env: MountEnv): Out {
    var s1 := Lookup(s, hash);
    if hash !in s1.devices then Out(s1, false)
    else
      var info := s1.devices[hash];
      if info.mountCount > 0 then
        if path != info.mountPath then Out(s1, false)
        else Out(s1.(devices := s1.devices[hash := info.(mountCount := info.mountCount + 1)]), true)
      else if hash !in s1.active && env.activateFails then Out(s1, false)
      else
        var s2 := s1.(active := s1.active + {hash});
        if env.probeFails || env.mountFails then Out(s2, false)
        else Out(s2.(mounts := s2.mounts + [Mount(path, hash)],
                     devices := s2.devices[hash := info.(mountCount := 1, mountPath := path)]), true)
  }

  /** The kernel takes away the last mount at a path. */
  function Unmounted(mounts: seq<Mount>, path: string): Option<seq<Mount>> {
    if mounts == [] then None
    else
      var n := |mounts| - 1;
      if mounts[n].path == path then Some(mounts[..n])
      else match Unmounted(mounts[..n], path) case None => None case Some(rest) => Some(rest + [mounts[n]])
  }

  datatype UnmountEnv = UnmountEnv(unmountFails: bool, infoFails: bool, removeFails: bool)

  function UnmountDevice(s: State, hash: string, env: UnmountEnv): Out {
    var s1 := Lookup(s, hash);
    if hash !in s1.devices || s1.devices[hash].mountCount == 0 then Out(s1, false)
    else
      var info := s1.devices[hash].(mountCount := s1.devices[hash].mountCount - 1);
      var s2 := s1.(devices := s1.devices[hash := info]);
      if info.mountCount > 0 then Out(s2, true)
      else
        var rest := Unmounted(s2.mounts, info.mountPath);
        if env.unmountFails || rest.None? then Out(s2, false)
        else
          var s3 := s2.(mounts := rest.value);
          var r := if hash in s3.active then RemoveActive(s3, hash, env.removeFails) else Out(s3, true);
          if env.infoFails then Out(s3, false)
          else if !r.ok then Out(r.s, false)
          else Out(r.s.(devices := r.s.devices[hash := info.(mountPath := "")]), true)
  }

  // ---- the status of a device ----

  datatype StatusEnv = StatusEnv(activateFails: bool, statusFails: bool)

  /** GetDeviceStatus activates the device to ask for its status, and leaves it active. */
  function GetDeviceStatus(s: State, hash: string, env: StatusEnv): Out {
    var s1 := Lookup(s, hash);
    if hash !in s1.devices || (hash !in s1.active && env.activateFails) then Out(s1, false)
    else Out(s1.(active := s1.active + {hash}), !env.statusFails)
  }

  // ---- starting again ----

  /** The daemon starts again: what it kept in memory is gone, and it takes the transaction id of the pool. */
  function Restart(s: State): State {
    s.(devices := map[], transactionId := s.poolTid, newTransactionId := s.poolTid, nextDeviceId := 0)
  }

  /** The daemon dies in AddDevice between the rename of the new record and the update of the pool. */
  function CrashedAdd(s: State, hash: string, id: nat): State {
    s.(pool := s.pool + {id}, files := s.files[hash := Record(id, s.newTransactionId + 1)])
  }

  // ---- runs ----

  datatype Op =
    | Add(hash: string, base: string, addEnv: AddEnv)
    | Remove(hash: string, deleteEnv: DeleteEnv)
    | MountAt(hash: string, path: string, mountEnv: MountEnv)
    | Unmount(hash: string, unmountEnv: UnmountEnv)
    | Has(hash: string)
    | Status(hash: string, statusEnv: StatusEnv)
    | Reboot

  function Apply(s: State, op: Op): Out {
    match op
    case Add(hash, base, env) => AddDevice(s, hash, base, env)
    case Remove(hash, env) => DeleteDevice(s, hash, env)
    case MountAt(hash, path, env) => MountDevice(s, hash, path, env)
    case Unmount(hash, env) => UnmountDevice(s, hash, env)
    case Has(hash) => Out(Lookup(s, hash), Known(s, hash))
    case Status(hash, env) => GetDeviceStatus(s, hash, env)
    case Reboot => Out(Restart(s), true)
  }

  function RunAll(s: State, ops: seq<Op>): State {
    if ops == [] then s else Apply(RunAll(s, ops[..|ops| - 1]), ops[|ops| - 1]).s
  }
}
