/** The agent's persisted store of refresh tokens, enrolments and devices. */
module AuthStore {
  import opened Text
  import opened Wrappers

  type Hash = string
  type DeviceId = string
  type Time = int

  datatype RefreshRecord = RefreshRecord(hash: Hash, deviceId: DeviceId, expiresAt: Time, used: bool, revoked: bool)
  datatype EnrollRecord = EnrollRecord(hash: Hash, expiresAt: Time, used: bool)
  datatype Device = Device(id: DeviceId, name: string, createdAt: Time, lastSeen: Time)

  /** The part of the state file the model keeps; the signer secret is not in it. */
  datatype FileState = FileState(refresh: seq<RefreshRecord>, enroll: seq<EnrollRecord>, devices: seq<Device>)

  const EMPTY := FileState([], [], [])

  // ----- What each store operation means, on values -----

  function Find(rs: seq<RefreshRecord>, h: Hash): nat { FirstWith(rs, (r: RefreshRecord) => r.hash, h) }

  function FindEnroll(es: seq<EnrollRecord>, h: Hash): nat { FirstWith(es, (e: EnrollRecord) => e.hash, h) }

  function FindDevice(ds: seq<Device>, d: DeviceId): nat { FirstWith(ds, (x: Device) => x.id, d) }

  function Touch(ds: seq<Device>, d: DeviceId, now: Time): seq<Device> {
    var i := FindDevice(ds, d);
    if i < |ds| then ds[i := ds[i].(lastSeen := now)] else ds
  }

  predicate Usable(r: RefreshRecord, now: Time) {
    !r.used && !r.revoked && now <= r.expiresAt
  }

  /** Rotation spends the first record with the old hash, if it is still good. */
  function Rotate(fs: FileState, spent: Hash, next: Hash, expiresAt: Time, now: Time): (FileState, Option<DeviceId>) {
    var i := Find(fs.refresh, spent);
    if i < |fs.refresh| && Usable(fs.refresh[i], now) then
      var r := fs.refresh[i];
      (FileState(
         fs.refresh[i := r.(used := true)] + [RefreshRecord(next, r.deviceId, expiresAt, false, false)],
         fs.enroll,
         Touch(fs.devices, r.deviceId, now)),
       Some(r.deviceId))
    else (fs, None)
  }

  function Kill(r: RefreshRecord): RefreshRecord { r.(used := true, revoked := true) }

  function KillDevice(rs: seq<RefreshRecord>, d: DeviceId): (r: seq<RefreshRecord>)
    ensures |r| == |rs|
    ensures forall i | 0 <= i < |rs| :: r[i] == if rs[i].deviceId == d then Kill(rs[i]) else rs[i]
  {
    seq(|rs|, i requires 0 <= i < |rs| => if rs[i].deviceId == d then Kill(rs[i]) else rs[i])
  }

  function KillEvery(rs: seq<RefreshRecord>): (r: seq<RefreshRecord>)
    ensures |r| == |rs|
    ensures forall i | 0 <= i < |rs| :: r[i] == Kill(rs[i])
  {
    seq(|rs|, i requires 0 <= i < |rs| => Kill(rs[i]))
  }

  /** The devices other than `d`, in order. */
  function Without(ds: seq<Device>, d: DeviceId): seq<Device> {
    if ds == [] then []
    else
      var n := |ds| - 1;
      Without(ds[..n], d) + if ds[n].id != d then [ds[n]] else []
  }

  function Revoke(fs: FileState, d: DeviceId): FileState {
    FileState(KillDevice(fs.refresh, d), fs.enroll, Without(fs.devices, d))
  }

  function RevokeEverything(fs: FileState): FileState {
    FileState(KillEvery(fs.refresh), fs.enroll, [])
  }

  function WithRefresh(fs: FileState, h: Hash, d: DeviceId, expiresAt: Time, now: Time): FileState {
    FileState(fs.refresh + [RefreshRecord(h, d, expiresAt, false, false)], fs.enroll, Touch(fs.devices, d, now))
  }

  function WithDevice(fs: FileState, d: DeviceId, name: string, now: Time): FileState {
    fs.(devices := fs.devices + [Device(d, name, now, now)])
  }

  function WithEnrollment(fs: FileState, h: Hash, expiresAt: Time): FileState {
    fs.(enroll := fs.enroll + [EnrollRecord(h, expiresAt, false)])
  }

  function SpendEnrollment(fs: FileState, h: Hash): FileState {
    var i := FindEnroll(fs.enroll, h);
    if i < |fs.enroll| then fs.(enroll := fs.enroll[i := fs.enroll[i].(used := true)]) else fs
  }

  /** Every record of the device is revoked, and there is one. */
  predicate Revoked(rs: seq<RefreshRecord>, d: DeviceId) {
    && (exists i | 0 <= i < |rs| :: rs[i].deviceId == d)
    && forall i | 0 <= i < |rs| && rs[i].deviceId == d :: rs[i].revoked
  }

  // ----- The store itself -----

  /** The state file: shared by the running agent and the `enroll` command. */
  class StateFile {
    var content: Option<FileState>
    constructor () ensures content == None { content := None; }
  }

  class Store {
    const file: StateFile
    var refresh: seq<RefreshRecord>
    var enroll: seq<EnrollRecord>
    var devices: seq<Device>

    function State(): FileState
      reads this
    {
      FileState(refresh, enroll, devices)
    }

    /** NewStore: load the file, or start empty. */
    constructor (file: StateFile)
      ensures this.file == file
      ensures State() == if file.content.Some? then file.content.value else EMPTY
    {
      this.file := file;
      if file.content.Some? {
        var fs := file.content.value;
        refresh, enroll, devices := fs.refresh, fs.enroll, fs.devices;
      } else {
        refresh, enroll, devices := [], [], [];
      }
    }

    /** The file, when there is one, replaces what is in memory. */
    method Reload()
      modifies this
      ensures State() == if file.content.Some? then file.content.value else old(State())
    {
      if file.content.Some? {
        var fs := file.content.value;
        refresh, enroll, devices := fs.refresh, fs.enroll, fs.devices;
      }
    }

    method Persist()
      modifies file
      ensures file.content == Some(State())
    {
      file.content := Some(FileState(refresh, enroll, devices));
    }

    method TouchDevice(d: DeviceId, now: Time)
      modifies this`devices
      ensures devices == Touch(old(devices), d, now) && |devices| == |old(devices)|
      ensures forall i | 0 <= i < |devices| ::
        devices[i] == if i == FindDevice(old(devices), d) then old(devices)[i].(lastSeen := now) else old(devices)[i]
    {
      for i := 0 to |devices|
        invariant devices == old(devices)
        invariant forall k | 0 <= k < i :: devices[k].id != d
      {
        if devices[i].id == d {
          devices := devices[i := devices[i].(lastSeen := now)];
          return;
        }
      }
    }

    method RotateRefreshAtomic(oldHash: Hash, newHash: Hash, expiresAt: Time, now: Time) returns (r: Option<DeviceId>)
      modifies this
      ensures (State(), r) == Rotate(old(State()), oldHash, newHash, expiresAt, now)
      ensures enroll == old(enroll) && |devices| == |old(devices)|
      ensures var rs, i := old(refresh), Find(old(refresh), oldHash);
        if r.None? then refresh == rs && devices == old(devices)
        else
          && i < |rs| && r == Some(rs[i].deviceId)
          && refresh == rs[i := rs[i].(used := true)] + [RefreshRecord(newHash, r.value, expiresAt, false, false)]
    {
      for i := 0 to |refresh|
        invariant State() == old(State())
        invariant forall k | 0 <= k < i :: refresh[k].hash != oldHash
      {
        if refresh[i].hash == oldHash {
          if refresh[i].used || refresh[i].revoked {
            return None;
          }
          if now > refresh[i].expiresAt {
            return None;
          }
          var deviceId := refresh[i].deviceId;
          refresh := refresh[i := refresh[i].(used := true)];
          refresh := refresh + [RefreshRecord(newHash, deviceId, expiresAt, false, false)];
          TouchDevice(deviceId, now);
          return Some(deviceId);
        }
      }
      return None;
    }

    method RefreshByHash(hash: Hash) returns (r: Option<RefreshRecord>)
      ensures var i := Find(refresh, hash);
        r == if i < |refresh| then Some(refresh[i]) else None
    {
      for i := 0 to |refresh|
        invariant forall k | 0 <= k < i :: refresh[k].hash != hash
      {
        if refresh[i].hash == hash {
          return Some(refresh[i]);
        }
      }
      return None;
    }

    method EnrollByHash(hash: Hash) returns (r: Option<EnrollRecord>)
      ensures var i := FindEnroll(enroll, hash);
        r == if i < |enroll| then Some(enroll[i]) else None
    {
      for i := 0 to |enroll|
        invariant forall k | 0 <= k < i :: enroll[k].hash != hash
      {
        if enroll[i].hash == hash {
          return Some(enroll[i]);
        }
      }
      return None;
    }

    method MarkEnrollmentUsed(hash: Hash)
      modifies this
      ensures State() == SpendEnrollment(old(State()), hash)
      ensures refresh == old(refresh) && devices == old(devices) && |enroll| == |old(enroll)|
      ensures forall i | 0 <= i < |enroll| ::
        enroll[i] == if i == FindEnroll(old(enroll), hash) then old(enroll)[i].(used := true) else old(enroll)[i]
    {
      for i := 0 to |enroll|
        invariant State() == old(State())
        invariant forall k | 0 <= k < i :: enroll[k].hash != hash
      {
        if enroll[i].hash == hash {
          enroll := enroll[i := enroll[i].(used := true)];
          return;
        }
      }
    }

    method AddEnrollment(hash: Hash, expiresAt: Time)
      modifies this
      ensures State() == WithEnrollment(old(State()), hash, expiresAt)
      ensures refresh == old(refresh) && devices == old(devices)
      ensures enroll == old(enroll) + [EnrollRecord(hash, expiresAt, false)]
    {
      enroll := enroll + [EnrollRecord(hash, expiresAt, false)];
    }

    method AddRefresh(hash: Hash, deviceId: DeviceId, expiresAt: Time, now: Time)
      modifies this
      ensures State() == WithRefresh(old(State()), hash, deviceId, expiresAt, now)
      ensures refresh == old(refresh) + [RefreshRecord(hash, deviceId, expiresAt, false, false)]
      ensures enroll == old(enroll) && devices == Touch(old(devices), deviceId, now)
    {
      refresh := refresh + [RefreshRecord(hash, deviceId, expiresAt, false, false)];
      TouchDevice(deviceId, now);
    }

    method AddDevice(id: DeviceId, name: string, createdAt: Time)
      modifies this
      ensures State() == WithDevice(old(State()), id, name, createdAt)
      ensures refresh == old(refresh) && enroll == old(enroll)
      ensures devices == old(devices) + [Device(id, name, createdAt, createdAt)]
    {
      devices := devices + [Device(id, name, createdAt, createdAt)];
    }

    method RevokeDevice(deviceId: DeviceId)
      modifies this
      ensures State() == Revoke(old(State()), deviceId)
      ensures enroll == old(enroll) && devices == Without(old(devices), deviceId)
      ensures |refresh| == |old(refresh)| && forall i | 0 <= i < |refresh| ::
        var x := old(refresh)[i];
        refresh[i] == if x.deviceId == deviceId then x.(used := true, revoked := true) else x
    {
      ghost var rs, ds := refresh, devices;
      for i := 0 to |refresh|
        invariant |refresh| == |rs| && devices == ds && enroll == old(enroll)
        invariant forall k | 0 <= k < i :: refresh[k] == if rs[k].deviceId == deviceId then Kill(rs[k]) else rs[k]
        invariant forall k | i <= k < |rs| :: refresh[k] == rs[k]
      {
        if refresh[i].deviceId == deviceId {
          refresh := refresh[i := refresh[i].(revoked := true)];
          refresh := refresh[i := refresh[i].(used := true)];
        }
      }
      assert refresh == KillDevice(rs, deviceId);
      var kept: seq<Device> := [];
      for i := 0 to |devices|
        invariant devices == ds && refresh == KillDevice(rs, deviceId) && enroll == old(enroll)
        invariant kept == Without(ds[..i], deviceId)
      {
        assert ds[..i + 1][..i] == ds[..i];
        if devices[i].id != deviceId {
          kept := kept + [devices[i]];
        }
      }
      assert ds[..|ds|] == ds;
      devices := kept;
    }

    method RevokeAll()
      modifies this
      ensures State() == RevokeEverything(old(State()))
      ensures enroll == old(enroll) && devices == []
      ensures |refresh| == |old(refresh)|
      ensures forall i | 0 <= i < |refresh| :: refresh[i] == old(refresh)[i].(used := true, revoked := true)
    {
      ghost var rs := refresh;
      for i := 0 to |refresh|
        invariant |refresh| == |rs| && enroll == old(enroll)
        invariant forall k | 0 <= k < i :: refresh[k] == Kill(rs[k])
        invariant forall k | i <= k < |rs| :: refresh[k] == rs[k]
      {
        refresh := refresh[i := refresh[i].(revoked := true)];
        refresh := refresh[i := refresh[i].(used := true)];
      }
      devices := [];
    }

    method IsDeviceRevoked(deviceId: DeviceId) returns (r: bool)
      ensures r == Revoked(refresh, deviceId)
      ensures r <==> (exists k | 0 <= k < |refresh| :: refresh[k].deviceId == deviceId)
                     && forall k | 0 <= k < |refresh| && refresh[k].deviceId == deviceId :: refresh[k].revoked
    {
      var found := false;
      for i := 0 to |refresh|
        invariant found <==> exists k | 0 <= k < i :: refresh[k].deviceId == deviceId
        invariant forall k | 0 <= k < i && refresh[k].deviceId == deviceId :: refresh[k].revoked
      {
        if refresh[i].deviceId == deviceId {
          found := true;
          if !refresh[i].revoked {
            return false;
          }
        }
      }
      return found;
    }
  }

  /** Filtering really removes the device, every time it occurs, and nothing else. */
  lemma {:induction false} WithoutKeepsOthers(ds: seq<Device>, d: DeviceId)
    ensures forall x: Device :: multiset(Without(ds, d))[x] == if x.id != d then multiset(ds)[x] else 0
    ensures forall x: Device :: x in Without(ds, d) <==> x in ds && x.id != d
  {
    if ds == [] {
    } else {
      var n := |ds| - 1;
      WithoutKeepsOthers(ds[..n], d);
      assert ds == ds[..n] + [ds[n]];
    }
  }

  /** ... and keeps the order: what comes first stays first. */
  lemma {:induction false} WithoutKeepsOrder(a: seq<Device>, b: seq<Device>, d: DeviceId)
    ensures Without(a + b, d) == Without(a, d) + Without(b, d)
  {
    if b == [] {
      assert a + b == a;
    } else {
      var n := |b| - 1;
      WithoutKeepsOrder(a, b[..n], d);
      assert (a + b)[..|a + b| - 1] == a + b[..n];
    }
  }
}
