/** Refresh-token families: what the record list of `AuthStore` stands for.

    The scheme is refresh token rotation as in section 4.14.2 of RFC 9700: every device has one
    line of tokens, of which at most the newest is good. */
module TokenFamilies {
  import opened AuthStore
  import opened Wrappers

  datatype Token = Token(hash: Hash, expiresAt: Time)
  datatype Family = Family(live: Option<Token>, spent: set<Hash>, revoked: bool)
  type Families = map<DeviceId, Family>

  datatype Op =
    | EnrolDevice(device: DeviceId, name: string, hash: Hash, expiresAt: Time, now: Time)
    | RotateToken(spent: Hash, next: Hash, expiresAt: Time, now: Time)
    | RevokeOne(device: DeviceId)
    | RevokeAll

  // ----- The store's side -----

  function Apply(fs: FileState, op: Op): (FileState, Option<DeviceId>) {
    match op
    case EnrolDevice(d, name, h, e, now) => (WithRefresh(WithDevice(fs, d, name, now), h, d, e, now), None)
    case RotateToken(spent, next, e, now) => Rotate(fs, spent, next, e, now)
    case RevokeOne(d) => (Revoke(fs, d), None)
    case RevokeAll => (RevokeEverything(fs), None)
  }

  predicate KnownHash(rs: seq<RefreshRecord>, h: Hash) { exists i | 0 <= i < |rs| :: rs[i].hash == h }

  predicate KnownDevice(rs: seq<RefreshRecord>, d: DeviceId) { exists i | 0 <= i < |rs| :: rs[i].deviceId == d }

  /** Generated device IDs and token hashes are new. */
  predicate Fresh(fs: FileState, op: Op) {
    match op
    case EnrolDevice(d, _, h, _, _) => !KnownDevice(fs.refresh, d) && !KnownHash(fs.refresh, h)
    case RotateToken(_, next, _, _) => !KnownHash(fs.refresh, next)
    case _ => true
  }

  // ----- The families' side -----

  ghost predicate LiveAt(m: Families, d: DeviceId, h: Hash, now: Time) {
    d in m && m[d].live.Some? && m[d].live.value.hash == h && now <= m[d].live.value.expiresAt
  }

  function Retire(f: Family): Family {
    Family(None, f.spent + if f.live.Some? then {f.live.value.hash} else {}, true)
  }

  ghost function Owner(m: Families, h: Hash, now: Time): Option<DeviceId> {
    if exists d :: LiveAt(m, d, h, now) then
      var d :| LiveAt(m, d, h, now);
      Some(d)
    else None
  }

  ghost function Meaning(m: Families, op: Op): (Families, Option<DeviceId>) {
    match op
    case EnrolDevice(d, _, h, e, _) => (m[d := Family(Some(Token(h, e)), {}, false)], None)
    case RotateToken(spent, next, e, now) =>
      (match Owner(m, spent, now)
       case Some(d) => (m[d := Family(Some(Token(next, e)), m[d].spent + {spent}, false)], Some(d))
       case None => (m, None))
    case RevokeOne(d) => (RetireAll(m, {d}), None)
    case RevokeAll => (RetireAll(m, m.Keys), None)
  }

  // ----- The relation between the two -----

  ghost predicate DistinctHashes(rs: seq<RefreshRecord>) {
    forall i, j | 0 <= i < j < |rs| :: rs[i].hash != rs[j].hash
  }

  /** The record belongs in the family. */
  ghost predicate Fits(r: RefreshRecord, f: Family) {
    && (r.used <==> r.hash in f.spent)
    && (!r.used ==> f.live == Some(Token(r.hash, r.expiresAt)))
    && r.revoked == f.revoked
  }

  /** Everything in the family comes from a record. */
  ghost predicate Covered(rs: seq<RefreshRecord>, d: DeviceId, f: Family) {
    && (forall h | h in f.spent :: exists i | 0 <= i < |rs| :: rs[i].deviceId == d && rs[i].hash == h)
    && (f.live.Some? ==>
          exists i | 0 <= i < |rs| :: rs[i].deviceId == d && !rs[i].used && rs[i].hash == f.live.value.hash)
    && (f.revoked ==> f.live.None?)
  }

  ghost predicate Refines(rs: seq<RefreshRecord>, m: Families) {
    && DistinctHashes(rs)
    && (forall i | 0 <= i < |rs| :: rs[i].deviceId in m && Fits(rs[i], m[rs[i].deviceId]))
    && (forall d | d in m :: KnownDevice(rs, d) && Covered(rs, d, m[d]))
  }

  predicate Registered(ds: seq<Device>, d: DeviceId) { exists i | 0 <= i < |ds| :: ds[i].id == d }

  /** Registered are exactly the devices whose family is not revoked. */
  ghost predicate RegistryAgrees(ds: seq<Device>, m: Families) {
    forall d :: Registered(ds, d) <==> d in m && !m[d].revoked
  }

  ghost predicate Related(fs: FileState, m: Families) {
    Refines(fs.refresh, m) && RegistryAgrees(fs.devices, m)
  }

  /** The records determine the families. */
  lemma FamiliesAreDetermined(rs: seq<RefreshRecord>, m: Families, m': Families)
    requires Refines(rs, m) && Refines(rs, m')
    ensures m == m'
  {
    forall d | d in m || d in m' ensures d in m && d in m' && m[d] == m'[d] {
      assert KnownDevice(rs, d);
      assert m[d].spent == m'[d].spent;
    }
  }

  /** What the record list of every reachable state keeps: at most one unspent token for a
      device, revoked tokens are spent, and a device is revoked as a whole or not at all. */
  lemma OneLiveToken(rs: seq<RefreshRecord>, m: Families, i: nat, j: nat)
    requires Refines(rs, m) && i < |rs| && j < |rs| && rs[i].deviceId == rs[j].deviceId
    ensures !rs[i].used && !rs[j].used ==> i == j
    ensures rs[i].revoked ==> rs[i].used
    ensures rs[i].revoked == rs[j].revoked
    ensures Revoked(rs, rs[i].deviceId) == m[rs[i].deviceId].revoked
  {
    assert Fits(rs[i], m[rs[i].deviceId]) && Fits(rs[j], m[rs[j].deviceId]);
    if !rs[i].used && !rs[j].used {
      assert rs[i].hash == rs[j].hash;
    }
    var d := rs[i].deviceId;
    assert forall k | 0 <= k < |rs| && rs[k].deviceId == d :: rs[k].revoked == m[d].revoked;
  }

  /** A good record is found exactly when its hash is some family's live token. */
  lemma OwnerIsRecord(rs: seq<RefreshRecord>, m: Families, h: Hash, now: Time)
    requires Refines(rs, m)
    ensures var i := Find(rs, h);
      Owner(m, h, now) == if i < |rs| && Usable(rs[i], now) then Some(rs[i].deviceId) else None
  {
    var i := Find(rs, h);
    if i < |rs| && Usable(rs[i], now) {
      assert Fits(rs[i], m[rs[i].deviceId]);
      assert LiveAt(m, rs[i].deviceId, h, now);
    }
    forall d | LiveAt(m, d, h, now) ensures i < |rs| && Usable(rs[i], now) && rs[i].deviceId == d {
      assert Covered(rs, d, m[d]);
      var k :| 0 <= k < |rs| && rs[k].deviceId == d && !rs[k].used && rs[k].hash == h;
      assert i == k;
      assert Fits(rs[k], m[d]);
    }
  }

  lemma AppendRefines(rs: seq<RefreshRecord>, m: Families, r: RefreshRecord, m': Families)
    requires Refines(rs, m)
    requires !KnownHash(rs, r.hash) && !KnownDevice(rs, r.deviceId) && !r.used && !r.revoked
    requires m' == m[r.deviceId := Family(Some(Token(r.hash, r.expiresAt)), {}, false)]
    ensures Refines(rs + [r], m')
  {
    var rs' := rs + [r];
    assert r.deviceId !in m;
    forall d | d in m' ensures KnownDevice(rs', d) && Covered(rs', d, m'[d]) {
      if d == r.deviceId {
        assert rs'[|rs|] == r;
      } else {
        assert KnownDevice(rs, d) && Covered(rs, d, m[d]);
        assert forall k | 0 <= k < |rs| :: rs'[k] == rs[k];
      }
    }
  }

  /** Spending record `i` and appending its successor, on both sides. */
  lemma SucceedRefines(
    rs: seq<RefreshRecord>, m: Families, i: nat, n: RefreshRecord, rs': seq<RefreshRecord>, m': Families)
    requires Refines(rs, m) && i < |rs| && !rs[i].used && !rs[i].revoked
    requires !KnownHash(rs, n.hash) && n.deviceId == rs[i].deviceId && !n.used && !n.revoked
    requires rs' == rs[i := rs[i].(used := true)] + [n]
    requires var d := n.deviceId;
      m' == m[d := Family(Some(Token(n.hash, n.expiresAt)), m[d].spent + {rs[i].hash}, false)]
    ensures Refines(rs', m')
  {
    var d := n.deviceId;
    assert Fits(rs[i], m[d]);
    assert rs'[|rs|] == n && rs'[i] == rs[i].(used := true);
    assert forall k | 0 <= k < |rs| && k != i :: rs'[k] == rs[k];
    assert n.hash !in m[d].spent by { assert Covered(rs, d, m[d]); }
    forall k | 0 <= k < |rs'| ensures rs'[k].deviceId in m' && Fits(rs'[k], m'[rs'[k].deviceId]) {
      if k < |rs| {
        assert Fits(rs[k], m[rs[k].deviceId]);
        assert !rs[k].used && rs[k].deviceId == d ==> k == i by {
          if !rs[k].used && rs[k].deviceId == d { OneLiveToken(rs, m, i, k); }
        }
      }
    }
    forall x | x in m' ensures KnownDevice(rs', x) && Covered(rs', x, m'[x]) {
      SucceedCovered(rs, m, i, rs', m', x);
    }
  }

  lemma SucceedCovered(rs: seq<RefreshRecord>, m: Families, i: nat, rs': seq<RefreshRecord>, m': Families, x: DeviceId)
    requires Refines(rs, m) && i < |rs| && |rs'| == |rs| + 1 && x in m
    requires rs'[i] == rs[i].(used := true) && !rs'[|rs|].used && rs'[|rs|].deviceId == rs[i].deviceId
    requires forall k | 0 <= k < |rs| && k != i :: rs'[k] == rs[k]
    requires m' == m[rs[i].deviceId := Family(Some(Token(rs'[|rs|].hash, rs'[|rs|].expiresAt)),
                                              m[rs[i].deviceId].spent + {rs[i].hash}, false)]
    ensures KnownDevice(rs', x) && Covered(rs', x, m'[x])
  {
    assert KnownDevice(rs, x) && Covered(rs, x, m[x]);
    var w :| 0 <= w < |rs| && rs[w].deviceId == x;
    assert rs'[w].deviceId == x;
    forall h | h in m'[x].spent ensures exists k | 0 <= k < |rs'| :: rs'[k].deviceId == x && rs'[k].hash == h {
      if h in m[x].spent {
        var k :| 0 <= k < |rs| && rs[k].deviceId == x && rs[k].hash == h;
        assert rs'[k].deviceId == x && rs'[k].hash == h;
      } else {
        assert rs'[i].hash == h;
      }
    }
    if x != rs[i].deviceId && m[x].live.Some? {
      var k :| 0 <= k < |rs| && rs[k].deviceId == x && !rs[k].used && rs[k].hash == m[x].live.value.hash;
      assert rs'[k] == rs[k];
    }
  }

  lemma RotateRefines(fs: FileState, m: Families, spent: Hash, next: Hash, e: Time, now: Time)
    requires Refines(fs.refresh, m) && !KnownHash(fs.refresh, next)
    ensures var (fs', r) := Rotate(fs, spent, next, e, now);
      var (m', r') := Meaning(m, RotateToken(spent, next, e, now));
      r == r' && Refines(fs'.refresh, m')
  {
    var rs, i := fs.refresh, Find(fs.refresh, spent);
    OwnerIsRecord(rs, m, spent, now);
    if i < |rs| && Usable(rs[i], now) {
      SucceedRefines(rs, m, i, RefreshRecord(next, rs[i].deviceId, e, false, false),
                     Rotate(fs, spent, next, e, now).0.refresh, Meaning(m, RotateToken(spent, next, e, now)).0);
    }
  }

  /** Records with and without the devices in `gone` killed. */
  ghost predicate KilledIn(rs: seq<RefreshRecord>, gone: set<DeviceId>, rs': seq<RefreshRecord>) {
    && |rs'| == |rs|
    && forall i | 0 <= i < |rs| :: rs'[i] == if rs[i].deviceId in gone then Kill(rs[i]) else rs[i]
  }

  lemma RetiredFits(r: RefreshRecord, f: Family)
    requires Fits(r, f)
    ensures Fits(Kill(r), Retire(f))
  {
  }

  lemma KilledKnows(rs: seq<RefreshRecord>, gone: set<DeviceId>, rs': seq<RefreshRecord>, d: DeviceId)
    requires KilledIn(rs, gone, rs') && KnownDevice(rs, d)
    ensures KnownDevice(rs', d)
  {
    var w :| 0 <= w < |rs| && rs[w].deviceId == d;
    assert rs'[w].deviceId == d;
  }

  lemma SpentCovered(rs: seq<RefreshRecord>, gone: set<DeviceId>, rs': seq<RefreshRecord>, d: DeviceId, h: Hash)
    requires KilledIn(rs, gone, rs') && exists i | 0 <= i < |rs| :: rs[i].deviceId == d && rs[i].hash == h
    ensures exists i | 0 <= i < |rs'| :: rs'[i].deviceId == d && rs'[i].hash == h
  {
    var k :| 0 <= k < |rs| && rs[k].deviceId == d && rs[k].hash == h;
    assert rs'[k].deviceId == d && rs'[k].hash == h;
  }

  lemma RetiredCovered(rs: seq<RefreshRecord>, gone: set<DeviceId>, rs': seq<RefreshRecord>, d: DeviceId, f: Family)
    requires KilledIn(rs, gone, rs') && Covered(rs, d, f)
    ensures Covered(rs', d, if d in gone then Retire(f) else f)
  {
    var f' := if d in gone then Retire(f) else f;
    forall h | h in f'.spent ensures exists i | 0 <= i < |rs'| :: rs'[i].deviceId == d && rs'[i].hash == h {
      SpentCovered(rs, gone, rs', d, h);
    }
    if d !in gone && f.live.Some? {
      var k :| 0 <= k < |rs| && rs[k].deviceId == d && !rs[k].used && rs[k].hash == f.live.value.hash;
      assert rs'[k] == rs[k];
    }
  }

  lemma RevokeRefines(rs: seq<RefreshRecord>, m: Families, gone: set<DeviceId>, rs': seq<RefreshRecord>)
    requires Refines(rs, m) && KilledIn(rs, gone, rs')
    ensures Refines(rs', RetireAll(m, gone))
  {
    var m' := RetireAll(m, gone);
    forall i | 0 <= i < |rs'| ensures rs'[i].deviceId in m' && Fits(rs'[i], m'[rs'[i].deviceId]) {
      assert Fits(rs[i], m[rs[i].deviceId]);
      RetiredFits(rs[i], m[rs[i].deviceId]);
    }
    forall d | d in m' ensures KnownDevice(rs', d) && Covered(rs', d, m'[d]) {
      KilledKnows(rs, gone, rs', d);
      RetiredCovered(rs, gone, rs', d, m[d]);
    }
  }

  lemma TouchKeepsIds(ds: seq<Device>, d: DeviceId, now: Time)
    ensures |Touch(ds, d, now)| == |ds|
    ensures forall i | 0 <= i < |ds| :: Touch(ds, d, now)[i].id == ds[i].id
  {
  }

  lemma WithoutRegistered(ds: seq<Device>, d: DeviceId, x: DeviceId)
    ensures Registered(Without(ds, d), x) <==> Registered(ds, x) && x != d
  {
    var w := Without(ds, d);
    WithoutKeepsOthers(ds, d);
    if Registered(w, x) {
      var i :| 0 <= i < |w| && w[i].id == x;
      assert w[i] in ds;
    }
    if Registered(ds, x) && x != d {
      var i :| 0 <= i < |ds| && ds[i].id == x;
      assert ds[i] in w;
    }
  }

  lemma TouchRegistered(ds: seq<Device>, d: DeviceId, now: Time, x: DeviceId)
    ensures Registered(Touch(ds, d, now), x) <==> Registered(ds, x)
  {
    TouchKeepsIds(ds, d, now);
  }

  lemma EnrolRegistered(ds: seq<Device>, added: Device, x: DeviceId)
    ensures Registered(ds + [added], x) <==> Registered(ds, x) || x == added.id
  {
    var ds' := ds + [added];
    assert ds'[|ds|] == added;
    if Registered(ds, x) {
      var i :| 0 <= i < |ds| && ds[i].id == x;
      assert ds'[i].id == x;
    }
  }

  lemma RegistryStep(fs: FileState, m: Families, op: Op, x: DeviceId)
    requires Related(fs, m) && Fresh(fs, op)
    ensures var m' := Meaning(m, op).0;
      Registered(Apply(fs, op).0.devices, x) <==> x in m' && !m'[x].revoked
  {
    var ds := fs.devices;
    assert Registered(ds, x) <==> x in m && !m[x].revoked;
    match op
    case EnrolDevice(d, name, h, e, now) =>
      EnrolRegistered(ds, Device(d, name, now, now), x);
      TouchRegistered(ds + [Device(d, name, now, now)], d, now, x);
    case RotateToken(spent, next, e, now) =>
      var i := Find(fs.refresh, spent);
      OwnerIsRecord(fs.refresh, m, spent, now);
      if i < |fs.refresh| && Usable(fs.refresh[i], now) {
        assert Fits(fs.refresh[i], m[fs.refresh[i].deviceId]);
        TouchRegistered(ds, fs.refresh[i].deviceId, now, x);
      }
    case RevokeOne(d) =>
      WithoutRegistered(ds, d, x);
    case RevokeAll =>
  }

  ghost function RetireAll(m: Families, gone: set<DeviceId>): Families {
    map x | x in m :: if x in gone then Retire(m[x]) else m[x]
  }

  lemma RecordsStep(fs: FileState, m: Families, op: Op)
    requires Refines(fs.refresh, m) && Fresh(fs, op)
    ensures Refines(Apply(fs, op).0.refresh, Meaning(m, op).0)
    ensures Apply(fs, op).1 == Meaning(m, op).1
  {
    var rs := fs.refresh;
    match op
    case EnrolDevice(d, _, h, e, _) =>
      var r := RefreshRecord(h, d, e, false, false);
      AppendRefines(rs, m, r, m[d := Family(Some(Token(h, e)), {}, false)]);
    case RotateToken(spent, next, e, now) =>
      RotateRefines(fs, m, spent, next, e, now);
    case RevokeOne(d) =>
      RevokeRefines(rs, m, {d}, KillDevice(rs, d));
    case RevokeAll =>
      RevokeRefines(rs, m, m.Keys, KillEvery(rs));
  }

  /** One operation of the store is one operation on the families, with the same answer. */
  lemma StepRefines(fs: FileState, m: Families, op: Op)
    requires Related(fs, m) && Fresh(fs, op)
    ensures Related(Apply(fs, op).0, Meaning(m, op).0)
    ensures Apply(fs, op).1 == Meaning(m, op).1
  {
    RecordsStep(fs, m, op);
    forall x ensures
      Registered(Apply(fs, op).0.devices, x) <==> x in Meaning(m, op).0 && !Meaning(m, op).0[x].revoked
    {
      RegistryStep(fs, m, op, x);
    }
  }

  // ----- Runs -----

  function After(ops: seq<Op>): FileState {
    if ops == [] then EMPTY else Apply(After(ops[..|ops| - 1]), ops[|ops| - 1]).0
  }

  ghost function MeaningAfter(ops: seq<Op>): Families {
    if ops == [] then map[] else Meaning(MeaningAfter(ops[..|ops| - 1]), ops[|ops| - 1]).0
  }

  ghost predicate FreshRun(ops: seq<Op>) {
    ops != [] ==> FreshRun(ops[..|ops| - 1]) && Fresh(After(ops[..|ops| - 1]), ops[|ops| - 1])
  }

  /** In every reachable state the record list is the families the same run builds, and every
      rotation gives the answer the families give. */
  lemma {:induction false} RunRefines(ops: seq<Op>)
    requires FreshRun(ops)
    ensures Related(After(ops), MeaningAfter(ops))
    ensures ops != [] ==>
      var before, last := ops[..|ops| - 1], ops[|ops| - 1];
      Apply(After(before), last).1 == Meaning(MeaningAfter(before), last).1
  {
    if ops == [] {
    } else {
      RunRefines(ops[..|ops| - 1]);
      StepRefines(After(ops[..|ops| - 1]), MeaningAfter(ops[..|ops| - 1]), ops[|ops| - 1]);
    }
  }

  // ----- What the registry says about a device -----

  /** The device as the run has it: named and dated at its enrolment, last seen at its enrolment or
      its latest successful rotation, and gone once it is revoked. */
  function History(ops: seq<Op>, d: DeviceId): Option<Device> {
    if ops == [] then None
    else
      var front, op := ops[..|ops| - 1], ops[|ops| - 1];
      var before := History(front, d);
      match op
      case EnrolDevice(x, name, _, _, now) => if x == d then Some(Device(d, name, now, now)) else before
      case RotateToken(_, _, _, now) =>
        if before.Some? && Apply(After(front), op).1 == Some(d)
        then Some(before.value.(lastSeen := now)) else before
      case RevokeOne(x) => if x == d then None else before
      case RevokeAll => None
  }

  ghost predicate DistinctIds(ds: seq<Device>) { forall i, j | 0 <= i < j < |ds| :: ds[i].id != ds[j].id }

  /** The registry is what the run says, device by device. */
  ghost predicate Records(ds: seq<Device>, ops: seq<Op>) {
    && DistinctIds(ds)
    && (forall i | 0 <= i < |ds| :: History(ops, ds[i].id) == Some(ds[i]))
    && (forall d | History(ops, d).Some? :: Registered(ds, d))
  }

  lemma TouchMeaning(ds: seq<Device>, d: DeviceId, now: Time)
    requires DistinctIds(ds)
    ensures |Touch(ds, d, now)| == |ds|
    ensures forall i | 0 <= i < |ds| ::
      Touch(ds, d, now)[i] == if ds[i].id == d then ds[i].(lastSeen := now) else ds[i]
  {
  }

  lemma {:induction false} WithoutDistinct(ds: seq<Device>, d: DeviceId)
    requires DistinctIds(ds)
    ensures DistinctIds(Without(ds, d))
  {
    if ds == [] {
    } else {
      var n := |ds| - 1;
      WithoutDistinct(ds[..n], d);
      WithoutKeepsOthers(ds[..n], d);
      var w := Without(ds[..n], d);
      forall i | 0 <= i < |w| ensures w[i].id != ds[n].id {
        assert w[i] in ds[..n];
      }
    }
  }

  lemma RecordsEnrol(ds: seq<Device>, ops: seq<Op>, op: Op)
    requires Records(ds, ops) && op.EnrolDevice? && !Registered(ds, op.device)
    ensures Records(Touch(ds + [Device(op.device, op.name, op.now, op.now)], op.device, op.now), ops + [op])
  {
    var x := Device(op.device, op.name, op.now, op.now);
    var ds' := ds + [x];
    assert (ops + [op])[..|ops|] == ops;
    TouchMeaning(ds', op.device, op.now);
    assert Touch(ds', op.device, op.now) == ds';
    forall d | History(ops + [op], d).Some? ensures Registered(ds', d) {
      EnrolRegistered(ds, x, d);
    }
  }

  lemma RecordsRotate(ds: seq<Device>, ops: seq<Op>, op: Op)
    requires Records(ds, ops) && op.RotateToken?
    ensures var r := Apply(After(ops), op).1;
      Records(if r.Some? then Touch(ds, r.value, op.now) else ds, ops + [op])
  {
    assert (ops + [op])[..|ops|] == ops;
    var r := Apply(After(ops), op).1;
    if r.Some? {
      TouchMeaning(ds, r.value, op.now);
      forall d | History(ops + [op], d).Some? ensures Registered(Touch(ds, r.value, op.now), d) {
        TouchRegistered(ds, r.value, op.now, d);
      }
    }
  }

  lemma RecordsRevoke(ds: seq<Device>, ops: seq<Op>, d: DeviceId)
    requires Records(ds, ops)
    ensures Records(Without(ds, d), ops + [RevokeOne(d)])
  {
    var w := Without(ds, d);
    WithoutDistinct(ds, d);
    forall i | 0 <= i < |w| ensures History(ops + [RevokeOne(d)], w[i].id) == Some(w[i]) {
      HistoryRevoked(ops, d, w[i].id);
      StillRecorded(ds, ops, d, i);
    }
    forall x | History(ops + [RevokeOne(d)], x).Some? ensures Registered(w, x) {
      HistoryRevoked(ops, d, x);
      WithoutRegistered(ds, d, x);
    }
  }

  lemma HistoryRevoked(ops: seq<Op>, d: DeviceId, x: DeviceId)
    ensures History(ops + [RevokeOne(d)], x) == if x == d then None else History(ops, x)
  {
    assert (ops + [RevokeOne(d)])[..|ops|] == ops;
  }

  lemma StillRecorded(ds: seq<Device>, ops: seq<Op>, d: DeviceId, i: nat)
    requires Records(ds, ops) && i < |Without(ds, d)|
    ensures var x := Without(ds, d)[i]; x.id != d && History(ops, x.id) == Some(x)
  {
    var x := Without(ds, d)[i];
    WithoutKeepsOthers(ds, d);
    assert x in Without(ds, d);
    var j :| 0 <= j < |ds| && ds[j] == x;
  }

  /** In every reachable state the registry is exactly what the run says: which devices, their
      names, when they were enrolled and when last seen. */
  lemma {:induction false} RunDevices(ops: seq<Op>)
    requires FreshRun(ops)
    ensures Records(After(ops).devices, ops)
  {
    if ops == [] {
    } else {
      var front, op := ops[..|ops| - 1], ops[|ops| - 1];
      var ds := After(front).devices;
      RunDevices(front);
      RunRefines(front);
      assert front + [op] == ops;
      if op.EnrolDevice? {
        assert op.device !in MeaningAfter(front) && !Registered(ds, op.device);
      }
      RecordsNext(ds, front, op);
    }
  }

  lemma RecordsNext(ds: seq<Device>, ops: seq<Op>, op: Op)
    requires Records(ds, ops) && ds == After(ops).devices && (op.EnrolDevice? ==> !Registered(ds, op.device))
    ensures Records(Apply(After(ops), op).0.devices, ops + [op])
  {
    match op
    case EnrolDevice(d, _, _, _, _) => RecordsEnrol(ds, ops, op);
    case RotateToken(_, _, _, _) => RecordsRotate(ds, ops, op);
    case RevokeOne(d) => RecordsRevoke(ds, ops, d);
    case RevokeAll => assert (ops + [op])[..|ops|] == ops;
  }

  /** None of these operations touches the enrolments. */
  lemma EnrolmentsUntouched(fs: FileState, op: Op)
    ensures Apply(fs, op).0.enroll == fs.enroll
  {
  }
}
