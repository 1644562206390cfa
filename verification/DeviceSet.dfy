/** The DeviceSet object (devmapper/deviceset.go) over a kernel object. Every method is proved to change the state as
    DeviceState says; locks are the subject of DeviceLocks.
  */
module DeviceSets {
  import opened Wrappers
  import opened DeviceState

  datatype Snap = Created | Exists | Refused

  /** The thin pool, device-mapper, the mount table and the metadata directory. */
  class Kernel {
    var files: map<string, Record>
    var pool: set<nat>
    var poolTid: nat
    var active: set<string>
    var mounts: seq<Mount>

    constructor ()
      ensures files == map[] && pool == {} && poolTid == 0 && active == {} && mounts == []
    {
      files, pool, poolTid, active, mounts := map[], {}, 0, {}, [];
    }

    // the create_snap message
    method CreateSnap(id: nat, fails: bool) returns (r: Snap)
      modifies this`pool
      ensures r.Exists? <==> id in old(pool)
      ensures r.Refused? <==> id !in old(pool) && (fails || id >= ID_LIMIT)
      ensures pool == if r.Created? then old(pool) + {id} else old(pool)
    {
      if id in pool {
        return Exists;
      }
      if fails || id >= ID_LIMIT {
        return Refused;
      }
      pool := pool + {id};
      return Created;
    }

    // the set_transaction_id message
    method SetTransactionId(was: nat, now: nat, fails: bool) returns (ok: bool)
      modifies this`poolTid
      ensures ok <==> !fails && old(poolTid) == was
      ensures poolTid == if ok then now else old(poolTid)
    {
      ok := !fails && poolTid == was;
      if ok {
        poolTid := now;
      }
    }

    method RemoveDevice(hash: string, fails: bool) returns (ok: bool)
      modifies this`active
      ensures ok <==> !fails && !exists m :: m in mounts && m.hash == hash
      ensures active == if ok then old(active) - {hash} else old(active)
    {
      ok := !fails;
      for i := 0 to |mounts|
        invariant ok <==> !fails && !exists m :: m in mounts[..i] && m.hash == hash
      {
        assert mounts[..i + 1] == mounts[..i] + [mounts[i]];
        if mounts[i].hash == hash {
          ok := false;
        }
      }
      assert mounts[..|mounts|] == mounts;
      if ok {
        active := active - {hash};
      }
    }

    // umount(2)
    method Umount(path: string, fails: bool) returns (ok: bool)
      modifies this`mounts
      ensures ok <==> !fails && Unmounted(old(mounts), path).Some?
      ensures mounts == if ok then Unmounted(old(mounts), path).value else old(mounts)
    {
      var rest := Unmounted(mounts, path);
      ok := !fails && rest.Some?;
      if ok {
        mounts := rest.value;
      }
    }
  }

  class DeviceSet {
    var devices: map<string, Info>
    var transactionId: nat
    var newTransactionId: nat
    var nextDeviceId: nat
    const kernel: Kernel

    ghost function View(): State
      reads this, kernel
    {
      State(devices, transactionId, newTransactionId, nextDeviceId,
            kernel.files, kernel.pool, kernel.poolTid, kernel.active, kernel.mounts)
    }

    constructor (k: Kernel)
      ensures kernel == k && View() == Restart(View())
    {
      kernel := k;
      devices, transactionId, newTransactionId, nextDeviceId := map[], k.poolTid, k.poolTid, 0;
    }

    method AllocateTransactionId() returns (id: nat)
      modifies this`newTransactionId
      ensures newTransactionId == old(newTransactionId) + 1 && id == newTransactionId
    {
      newTransactionId := newTransactionId + 1;
      return newTransactionId;
    }

    method LoadMetadata(hash: string) returns (r: Option<Info>)
      ensures r.Some? <==> Loadable(View(), hash)
      ensures r.Some? ==> r.value == Info(kernel.files[hash].id, kernel.files[hash].tid, 0, "")
    {
      if hash !in kernel.files {
        return None;
      }
      var info := kernel.files[hash];
      if info.tid > transactionId {
        return None;
      }
      return Some(Info(info.id, info.tid, 0, ""));
    }

    method LookupDevice(hash: string) returns (r: Option<Info>)
      modifies this`devices
      ensures View() == Lookup(old(View()), hash)
      ensures r == if hash in devices then Some(devices[hash]) else None
    {
      if hash in devices {
        return Some(devices[hash]);
      }
      r := LoadMetadata(hash);
      if r.Some? {
        devices := devices[hash := r.value];
      }
    }

    method SaveMetadata(hash: string, info: Info, save: Save) returns (ok: bool)
      modifies this`transactionId, kernel
      ensures Out(View(), ok) == DeviceState.SaveMetadata(old(View()), hash, info, save)
    {
      if save.NotRenamed? {
        return false;
      }
      kernel.files := kernel.files[hash := Record(info.id, info.tid)];
      if newTransactionId != transactionId {
        ok := kernel.SetTransactionId(transactionId, newTransactionId, save.NotCommitted?);
        if !ok {
          return false;
        }
        transactionId := newTransactionId;
      }
      return true;
    }

    method RegisterDevice(id: nat, hash: string, save: Save) returns (ok: bool)
      modifies this, kernel
      ensures Out(View(), ok) == DeviceState.RegisterDevice(old(View()), id, hash, save)
    {
      var tid := AllocateTransactionId();
      var info := Info(id, tid, 0, "");
      devices := devices[hash := info];
      ok := SaveMetadata(hash, info, save);
      if !ok {
        devices := devices - {hash};
      }
    }

    /** createSnapDevice: tries ids from deviceId upward until one is not taken. When the base was active and cannot be
        resumed, the call fails with the id taken. */
    method CreateSnapDevice(deviceId: nat, base: string, fails: bool, resumeFails: bool) returns (id: nat, ok: bool)
      modifies kernel`pool
      ensures id == FreeId(old(kernel.pool), deviceId)
      ensures ok <==> !fails && id < ID_LIMIT && !(base in kernel.active && resumeFails)
      ensures kernel.pool == if !fails && id < ID_LIMIT then old(kernel.pool) + {id} else old(kernel.pool)
    {
      var suspended := base in kernel.active;
      id := deviceId;
      while true
        invariant kernel.pool == old(kernel.pool) && FreeId(kernel.pool, id) == FreeId(kernel.pool, deviceId)
        decreases AtLeast(kernel.pool, id)
      {
        var r := kernel.CreateSnap(id, fails);
        if !r.Exists? {
          return id, r.Created? && !(suspended && resumeFails);
        }
        assert id in AtLeast(kernel.pool, id);
        id := id + 1;
      }
    }

    method AddDevice(hash: string, baseHash: string, env: AddEnv) returns (ok: bool)
      modifies this, kernel
      ensures Out(View(), ok) == DeviceState.AddDevice(old(View()), hash, baseHash, env)
    {
      hide Lookup, FreeId, Loadable, DeviceState.SaveMetadata, DeviceState.RegisterDevice;
      var baseInfo := LookupDevice(baseHash);
      if baseInfo.None? {
        return false;
      }
      var info := LookupDevice(hash);
      if info.Some? {
        return false;
      }
      var deviceId, created := CreateSnapDevice(nextDeviceId, baseHash, env.snapFails, env.resumeFails);
      if !created {
        return false;
      }
      nextDeviceId := (deviceId + 1) % ID_LIMIT;
      ok := RegisterDevice(deviceId, hash, env.save);
      if !ok && !env.undoFails {
        kernel.pool := kernel.pool - {deviceId};
      }
    }

    method DeleteDevice(hash: string, env: DeleteEnv) returns (ok: bool)
      modifies this, kernel
      ensures Out(View(), ok) == DeviceState.DeleteDevice(old(View()), hash, env)
    {
      hide Lookup, Loadable;
      var info := LookupDevice(hash);
      if info.None? {
        return false;
      }
      if env.discardActivates {
        kernel.active := kernel.active + {hash};
      }
      if hash in kernel.active {
        var removed := kernel.RemoveDevice(hash, env.removeFails);
        if !removed {
          return false;
        }
      }
      if env.deleteFails {
        return false;
      }
      kernel.pool := kernel.pool - {info.value.id};
      var _ := AllocateTransactionId();
      devices := devices - {hash};
      if env.metadataFails {
        devices := devices[hash := info.value];
        return false;
      }
      kernel.files := kernel.files - {hash};
      return true;
    }

    method MountDevice(hash: string, path: string, env: MountEnv) returns (ok: bool)
      modifies this, kernel
      ensures Out(View(), ok) == DeviceState.MountDevice(old(View()), hash, path, env)
    {
      var found := LookupDevice(hash);
      if found.None? {
        return false;
      }
      var info := found.value;
      if info.mountCount > 0 {
        if path != info.mountPath {
          return false;
        }
        devices := devices[hash := info.(mountCount := info.mountCount + 1)];
        return true;
      }
      if hash !in kernel.active {
        if env.activateFails {
          return false;
        }
        kernel.active := kernel.active + {hash};
      }
      assert kernel.active == kernel.active + {hash};
      if env.probeFails || env.mountFails {
        return false;
      }
      kernel.mounts := kernel.mounts + [Mount(path, hash)];
      devices := devices[hash := info.(mountCount := 1, mountPath := path)];
      return true;
    }

    method UnmountDevice(hash: string, env: UnmountEnv) returns (ok: bool)
      modifies this, kernel
      ensures Out(View(), ok) == DeviceState.UnmountDevice(old(View()), hash, env)
    {
      var found := LookupDevice(hash);
      if found.None? || found.value.mountCount == 0 {
        return false;
      }
      var info := found.value.(mountCount := found.value.mountCount - 1);
      devices := devices[hash := info];
      if info.mountCount > 0 {
        return true;
      }
      var gone := kernel.Umount(info.mountPath, env.unmountFails);
      if !gone || env.infoFails {
        return false;
      }
      if hash in kernel.active {
        var removed := kernel.RemoveDevice(hash, env.removeFails);
        if !removed {
          return false;
        }
      }
      devices := devices[hash := info.(mountPath := "")];
      return true;
    }

    method GetDeviceStatus(hash: string, env: StatusEnv) returns (r: Option<Record>)
      modifies this, kernel
      ensures Out(View(), r.Some?) == DeviceState.GetDeviceStatus(old(View()), hash, env)
      ensures r.Some? ==> hash in devices && r.value == Record(devices[hash].id, devices[hash].tid)
    {
      var found := LookupDevice(hash);
      if found.None? {
        return None;
      }
      if hash !in kernel.active {
        if env.activateFails {
          return None;
        }
        kernel.active := kernel.active + {hash};
      }
      assert kernel.active == kernel.active + {hash};
      if env.statusFails {
        return None;
      }
      return Some(Record(found.value.id, found.value.tid));
    }
  }
}
