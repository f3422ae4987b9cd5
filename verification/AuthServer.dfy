/** The authentication handlers as whole steps over store and state file, the `enroll` command
    beside them, and the gate in front of protected routes. */
module AuthServer {
  import opened AuthStore
  import opened Wrappers
  import opened TokenFamilies
  import opened Signer
  import RateLimit
  import RefreshProtocol

  // ----- Whole handlers, on values -----

  /** What the agent holds in memory and what the state file holds. */
  datatype Host = Host(memory: FileState, disk: Option<FileState>)

  function Loaded(disk: Option<FileState>, otherwise: FileState): FileState {
    if disk.Some? then disk.value else otherwise
  }

  predicate Enrollable(fs: FileState, h: Hash, now: Time) {
    var i := FindEnroll(fs.enroll, h);
    i < |fs.enroll| && now <= fs.enroll[i].expiresAt
  }

  function EnrolStep(x: Host, token: Hash, d: DeviceId, name: string, next: Hash, e: Time, now: Time): (Host, bool) {
    var fs := Loaded(x.disk, x.memory);
    if !Enrollable(fs, token, now) then (Host(fs, x.disk), false)
    else
      var fs' := WithRefresh(SpendEnrollment(WithDevice(fs, d, name, now), token), next, d, e, now);
      (Host(fs', Some(fs')), true)
  }

  function RefreshStep(x: Host, h: Hash, next: Hash, e: Time, now: Time): (Host, bool) {
    var (fs, answer) := Rotate(x.memory, h, next, e, now);
    if answer.Some? then (Host(fs, Some(fs)), true)
    else
      var i := Find(fs.refresh, h);
      var fs' := if i < |fs.refresh| then Revoke(fs, fs.refresh[i].deviceId) else fs;
      (Host(fs', Some(fs')), false)
  }

  function RevokeStep(x: Host, d: DeviceId): Host {
    var fs := Revoke(x.memory, d);
    Host(fs, Some(fs))
  }

  /** `qwe1-agent enroll` is another process: it only ever sees the file. */
  function CliStep(x: Host, token: Hash, e: Time): Host {
    Host(x.memory, Some(WithEnrollment(Loaded(x.disk, EMPTY), token, e)))
  }

  function RestartStep(x: Host): Host { Host(Loaded(x.disk, EMPTY), x.disk) }

  /** What becomes of a request to a protected route. */
  datatype Access = NoToken | Limited | BadToken | OldToken | DeviceRevoked | Served(device: DeviceId)

  function Admit(raw: string, granted: bool, v: Verdict, rs: seq<RefreshRecord>): Access {
    if raw == "" then NoToken
    else if !granted then Limited
    else
      match v
      case Invalid => BadToken
      case Expired => OldToken
      case Accepted(d) => if Revoked(rs, d) then DeviceRevoked else Served(d)
  }

  // ----- The handlers themselves -----

  class Server {
    const store: Store
    const file: StateFile
    const limiter: RateLimit.Limiter
    const signer: Signer

    ghost predicate Valid() { store.file == file }

    ghost function View(): Host
      reads store, file
    {
      Host(store.State(), file.content)
    }

    constructor (file: StateFile, limiter: RateLimit.Limiter, signer: Signer)
      ensures Valid() && this.file == file && this.limiter == limiter && this.signer == signer
      ensures View() == RestartStep(Host(EMPTY, old(file.content)))
      ensures View() == Host(if old(file.content).Some? then old(file.content).value else EMPTY, old(file.content))
    {
      this.file, this.limiter, this.signer := file, limiter, signer;
      store := new Store(file);
    }

    method HandleEnroll(token: Hash, deviceId: DeviceId, name: string, next: Hash, expiresAt: Time, now: Time)
      returns (ok: bool)
      requires Valid()
      modifies store, file
      ensures (View(), ok) == EnrolStep(old(View()), token, deviceId, name, next, expiresAt, now)
    {
      store.Reload();
      var enroll := store.EnrollByHash(token);
      if enroll.None? || now > enroll.value.expiresAt {
        return false;
      }
      store.AddDevice(deviceId, name, now);
      store.MarkEnrollmentUsed(token);
      store.AddRefresh(next, deviceId, expiresAt, now);
      store.Persist();
      return true;
    }

    method HandleRefresh(hash: Hash, next: Hash, expiresAt: Time, now: Time) returns (ok: bool)
      requires Valid()
      modifies store, file
      ensures (View(), ok) == RefreshStep(old(View()), hash, next, expiresAt, now)
    {
      var device := store.RotateRefreshAtomic(hash, next, expiresAt, now);
      if device.None? {
        var refresh := store.RefreshByHash(hash);
        if refresh.Some? {
          store.RevokeDevice(refresh.value.deviceId);
        }
        store.Persist();
        return false;
      }
      store.Persist();
      return true;
    }

    method HandleRevoke(deviceId: DeviceId)
      requires Valid()
      modifies store, file
      ensures View() == RevokeStep(old(View()), deviceId)
    {
      store.RevokeDevice(deviceId);
      store.Persist();
    }

    method AuthMiddleware(raw: string, now: real, unix: int) returns (a: Access)
      modifies limiter
      ensures a == Admit(raw,
                         RateLimit.TakeSpec(limiter.c, old(limiter.buckets), raw, 1, now).1,
                         signer.Validate(raw, unix), store.refresh)
      ensures limiter.buckets ==
              if raw == "" then old(limiter.buckets)
              else RateLimit.TakeSpec(limiter.c, old(limiter.buckets), raw, 1, now).0
    {
      if raw == "" {
        return NoToken;
      }
      var granted := limiter.Take(raw, 1, now);
      if !granted {
        return Limited;
      }
      match signer.Validate(raw, unix)
      case Invalid => return BadToken;
      case Expired => return OldToken;
      case Accepted(deviceId) =>
        var revoked := store.IsDeviceRevoked(deviceId);
        if revoked {
          return DeviceRevoked;
        }
        return Served(deviceId);
    }
  }

  /** runEnroll: a store of its own over the same file. */
  method RunEnroll(file: StateFile, token: Hash, expiresAt: Time, ghost memory: FileState)
    modifies file
    ensures Host(memory, file.content) == CliStep(Host(memory, old(file.content)), token, expiresAt)
    ensures file.content.Some? && var before := Loaded(old(file.content), EMPTY);
      file.content.value
        == FileState(before.refresh, before.enroll + [EnrollRecord(token, expiresAt, false)], before.devices)
  {
    var store := new Store(file);
    store.AddEnrollment(token, expiresAt);
    store.Persist();
  }

  // ----- Memory and disk -----

  datatype Action =
    | Enrol(token: Hash, device: DeviceId, name: string, next: Hash, expiresAt: Time, now: Time)
    | Refresh(hash: Hash, next: Hash, expiresAt: Time, now: Time)
    | RevokeOwn(device: DeviceId)
    | Cli(token: Hash, expiresAt: Time)
    | Restart

  function Do(x: Host, a: Action): Host {
    match a
    case Enrol(t, d, name, n, e, now) => EnrolStep(x, t, d, name, n, e, now).0
    case Refresh(h, n, e, now) => RefreshStep(x, h, n, e, now).0
    case RevokeOwn(d) => RevokeStep(x, d)
    case Cli(t, e) => CliStep(x, t, e)
    case Restart => RestartStep(x)
  }

  function DoAll(x: Host, acts: seq<Action>): Host
    decreases |acts|
  {
    if acts == [] then x else DoAll(Do(x, acts[0]), acts[1..])
  }

  ghost predicate InStep(x: Host) {
    var d := Loaded(x.disk, EMPTY);
    x.memory.refresh == d.refresh && x.memory.devices == d.devices
  }

  /** Memory and file agree on tokens and devices after every step, so reloading brings back no
      spent or revoked token and no removed device: at most the enrolments change. */
  lemma {:induction false} MemoryIsDisk(x: Host, acts: seq<Action>)
    requires InStep(x)
    ensures var y := DoAll(x, acts);
      && InStep(y)
      && Loaded(y.disk, y.memory).refresh == y.memory.refresh
      && Loaded(y.disk, y.memory).devices == y.memory.devices
    decreases |acts|
  {
    if acts == [] {
    } else {
      MemoryIsDisk(Do(x, acts[0]), acts[1..]);
    }
  }

  // ----- Is an enrolment made on the command line picked up? -----

  predicate Listed(fs: FileState, t: Hash) { FindEnroll(fs.enroll, t) < |fs.enroll| }

  function Listing(fs: FileState, t: Hash): Option<Time> {
    var i := FindEnroll(fs.enroll, t);
    if i < |fs.enroll| then Some(fs.enroll[i].expiresAt) else None
  }

  /** Does a handler that writes the file without reading it come before one that reads it? */
  predicate Overwritten(acts: seq<Action>) {
    acts != [] && (acts[0].Refresh? || acts[0].RevokeOwn? || (acts[0].Cli? && Overwritten(acts[1..])))
  }

  lemma FindAppended(es: seq<EnrollRecord>, e: EnrollRecord, t: Hash)
    ensures FindEnroll(es + [e], t) ==
      if FindEnroll(es, t) < |es| then FindEnroll(es, t) else if e.hash == t then |es| else |es| + 1
  {
    var more, i := es + [e], FindEnroll(es, t);
    assert forall k | 0 <= k < |es| :: more[k] == es[k];
    assert more[|es|] == e;
    if i < |es| { assert more[i].hash == t; }
  }

  lemma FindUpdated(es: seq<EnrollRecord>, i: nat, e: EnrollRecord, t: Hash)
    requires i < |es| && e.hash == es[i].hash
    ensures FindEnroll(es[i := e], t) == FindEnroll(es, t)
  {
    var f := es[i := e];
    assert forall k | 0 <= k < |es| :: f[k].hash == es[k].hash;
    var j, j' := FindEnroll(es, t), FindEnroll(f, t);
    if j < |es| { assert f[j].hash == t; }
    if j' < |es| { assert es[j'].hash == t; }
  }

  lemma SpendingKeepsListing(fs: FileState, h: Hash, t: Hash)
    ensures Listing(SpendEnrollment(fs, h), t) == Listing(fs, t)
  {
    var i := FindEnroll(fs.enroll, h);
    if i < |fs.enroll| { FindUpdated(fs.enroll, i, fs.enroll[i].(used := true), t); }
  }

  /** Memory and file list the enrolment, until then. */
  ghost predicate BothList(x: Host, t: Hash, until: Option<Time>) {
    x.disk.Some? && Listing(x.disk.value, t) == until && Listing(x.memory, t) == until
  }

  lemma BothListStill(x: Host, a: Action, t: Hash, until: Option<Time>)
    requires BothList(x, t, until) && (a.Cli? ==> a.token != t)
    ensures BothList(Do(x, a), t, until)
  {
    match a
    case Enrol(h, d, name, n, e, now) => SpendingKeepsListing(WithDevice(x.disk.value, d, name, now), h, t);
    case Cli(h, e) => FindAppended(x.disk.value.enroll, EnrollRecord(h, e, false), t);
    case _ =>
  }

  /** Once memory and file list the same enrolment, they keep it. */
  lemma {:induction false} SharedListingStays(x: Host, acts: seq<Action>, t: Hash, until: Option<Time>)
    requires BothList(x, t, until)
    requires forall i | 0 <= i < |acts| && acts[i].Cli? :: acts[i].token != t
    ensures BothList(DoAll(x, acts), t, until)
    decreases |acts|
  {
    if acts == [] {
    } else {
      BothListStill(x, acts[0], t, until);
      SharedListingStays(Do(x, acts[0]), acts[1..], t, until);
    }
  }

  lemma {:induction false} ListingAfter(x: Host, acts: seq<Action>, t: Hash)
    requires x.disk.Some? && Listing(x.disk.value, t).Some? && Listing(x.memory, t).None?
    requires forall i | 0 <= i < |acts| && acts[i].Cli? :: acts[i].token != t
    ensures var y := DoAll(x, acts);
      y.disk.Some? && Listing(y.disk.value, t) == if Overwritten(acts) then None else Listing(x.disk.value, t)
    decreases |acts|
  {
    if acts == [] {
    } else {
      var y := Do(x, acts[0]);
      match acts[0]
      case Refresh(_, _, _, _) => SharedListingStays(y, acts[1..], t, Listing(y.memory, t));
      case RevokeOwn(_) => SharedListingStays(y, acts[1..], t, Listing(y.memory, t));
      case Restart => SharedListingStays(y, acts[1..], t, Listing(y.memory, t));
      case Enrol(h, d, name, _, _, now) =>
        SpendingKeepsListing(WithDevice(x.disk.value, d, name, now), h, t);
        SharedListingStays(y, acts[1..], t, Listing(y.memory, t));
      case Cli(h, e) =>
        FindAppended(x.disk.value.enroll, EnrollRecord(h, e, false), t);
        ListingAfter(y, acts[1..], t);
    }
  }

  /** The reload in `handleEnroll` is there to pick up enrolments the command line has added to
      the file. It does so exactly when no refresh or revoke handler has written the agent's
      older list over them first. */
  lemma EnrolmentPickedUp(x: Host, t: Hash, e: Time, acts: seq<Action>,
                          d: DeviceId, name: string, next: Hash, e': Time, now: Time)
    requires !Listed(x.memory, t) && !Listed(Loaded(x.disk, EMPTY), t)
    requires forall i | 0 <= i < |acts| && acts[i].Cli? :: acts[i].token != t
    ensures var y := DoAll(CliStep(x, t, e), acts);
      EnrolStep(y, t, d, name, next, e', now).1 <==> !Overwritten(acts) && now <= e
  {
    var y := CliStep(x, t, e);
    FindAppended(Loaded(x.disk, EMPTY).enroll, EnrollRecord(t, e, false), t);
    assert Listing(y.disk.value, t) == Some(e);
    ListingAfter(y, acts, t);
  }

  // ----- What an accepted enrolment leaves -----

  /** The device is registered, its token is good until it expires, the enrolment is marked, and
      nothing else in memory or file differs from what was loaded. */
  lemma EnrolAccepted(x: Host, token: Hash, d: DeviceId, name: string, next: Hash, e: Time, now: Time,
                      next': Hash, e': Time, later: Time)
    requires EnrolStep(x, token, d, name, next, e, now).1
    requires var fs := Loaded(x.disk, x.memory); !KnownHash(fs.refresh, next) && !Registered(fs.devices, d)
    ensures var fs, y := Loaded(x.disk, x.memory), EnrolStep(x, token, d, name, next, e, now).0;
      && y.disk == Some(y.memory)
      && Rotate(y.memory, next, next', e', later).1 == (if later <= e then Some(d) else None)
      && fs.refresh <= y.memory.refresh && |y.memory.refresh| == |fs.refresh| + 1
      && y.memory.devices == fs.devices + [Device(d, name, now, now)]
      && |y.memory.enroll| == |fs.enroll| && FindEnroll(fs.enroll, token) < |fs.enroll|
      && forall i | 0 <= i < |fs.enroll| :: y.memory.enroll[i] ==
           if i == FindEnroll(fs.enroll, token) then fs.enroll[i].(used := true) else fs.enroll[i]
  {
    var fs, y := Loaded(x.disk, x.memory), EnrolStep(x, token, d, name, next, e, now).0;
    var rs := y.memory.refresh;
    assert rs == fs.refresh + [RefreshRecord(next, d, e, false, false)];
    assert rs[|fs.refresh|].hash == next && forall k | 0 <= k < |fs.refresh| :: rs[k] == fs.refresh[k];
    assert Find(rs, next) == |fs.refresh|;
    var ds := fs.devices + [Device(d, name, now, now)];
    assert ds[|fs.devices|].id == d && forall k | 0 <= k < |fs.devices| :: ds[k] == fs.devices[k];
    assert FindDevice(ds, d) == |fs.devices|;
    assert Touch(ds, d, now) == ds;
  }

  /** A refused one changes nothing but what was loaded. */
  lemma EnrolRefused(x: Host, token: Hash, d: DeviceId, name: string, next: Hash, e: Time, now: Time)
    requires !EnrolStep(x, token, d, name, next, e, now).1
    ensures EnrolStep(x, token, d, name, next, e, now).0 == Host(Loaded(x.disk, x.memory), x.disk)
  {
  }

  // ----- The handlers and the interleaved protocol -----

  /** The refresh handler on memory is the protocol's handler with nothing in between: same
      records, enrolments and devices, and it answers with tokens exactly if that grants them. */
  lemma RefreshIsProtocol(x: Host, s: RefreshProtocol.State, q: RefreshProtocol.RequestId, e: Time, now: Time)
    requires s.fs == x.memory && RefreshProtocol.IsReceived(s, q)
    ensures var (y, ok) := RefreshStep(x, s.handlers[q].hash, s.handlers[q].next, e, now);
      && y.memory == RefreshProtocol.Handle(s, q, e, now).fs && y.disk == Some(y.memory)
      && (ok <==> RefreshProtocol.Handle(s, q, e, now).handlers[q].Granted?)
  {
  }

  /** So is the enrolment handler, but for the enrolments it reads and marks, */
  lemma EnrolIsProtocol(x: Host, s: RefreshProtocol.State, token: Hash,
                        d: DeviceId, name: string, next: Hash, e: Time, now: Time)
    requires s.fs == Loaded(x.disk, x.memory) && EnrolStep(x, token, d, name, next, e, now).1
    requires RefreshProtocol.Enabled(s, RefreshProtocol.AppEnrols(d, name, next, e, now))
    ensures var fs := EnrolStep(x, token, d, name, next, e, now).0.memory;
      var fs' := RefreshProtocol.Next(s, RefreshProtocol.AppEnrols(d, name, next, e, now)).fs;
      fs.refresh == fs'.refresh && fs.devices == fs'.devices
  {
  }

  /** ... and the revocation handler. */
  lemma RevokeIsProtocol(x: Host, s: RefreshProtocol.State, d: DeviceId)
    requires s.fs == x.memory
    ensures var y := RevokeStep(x, d);
      y.memory == RefreshProtocol.Next(s, RefreshProtocol.RevokeRequest(d)).fs && y.disk == Some(y.memory)
  {
  }

  // ----- Reuse, over whole handlers -----

  /** The device is revoked in memory and on file. */
  ghost predicate BothRevoked(x: Host, d: DeviceId) {
    x.disk.Some? && Revoked(x.memory.refresh, d) && Revoked(x.disk.value.refresh, d)
  }

  /** A known token that is spent, revoked or past its expiry is refused, and its device is
      revoked in memory and on file. */
  lemma ReuseRevokes(x: Host, h: Hash, next: Hash, e: Time, now: Time)
    requires var i := Find(x.memory.refresh, h); i < |x.memory.refresh| && !Usable(x.memory.refresh[i], now)
    ensures var (y, ok) := RefreshStep(x, h, next, e, now);
      !ok && BothRevoked(y, x.memory.refresh[Find(x.memory.refresh, h)].deviceId)
  {
    var rs := x.memory.refresh;
    var d := rs[Find(rs, h)].deviceId;
    assert KnownDevice(rs, d);
    RefreshProtocol.KillRevokes(rs, d);
  }

  /** An unknown one is refused and changes nothing in memory. */
  lemma UnknownRefused(x: Host, h: Hash, next: Hash, e: Time, now: Time)
    requires !KnownHash(x.memory.refresh, h)
    ensures RefreshStep(x, h, next, e, now) == (Host(x.memory, Some(x.memory)), false)
  {
  }

  lemma AppendKeepsRevoked(rs: seq<RefreshRecord>, r: RefreshRecord, d: DeviceId)
    requires Revoked(rs, d) && r.deviceId != d
    ensures Revoked(rs + [r], d)
  {
    var w :| 0 <= w < |rs| && rs[w].deviceId == d;
    assert (rs + [r])[w].deviceId == d;
  }

  lemma BothRevokedStay(x: Host, a: Action, d: DeviceId)
    requires BothRevoked(x, d) && (a.Enrol? ==> a.device != d)
    ensures BothRevoked(Do(x, a), d)
  {
    match a
    case Enrol(t, dev, name, n, e, now) =>
      AppendKeepsRevoked(x.disk.value.refresh, RefreshRecord(n, dev, e, false, false), d);
    case Refresh(h, n, e, now) =>
      RefreshKeepsRevoked(x, h, n, e, now, d);
    case RevokeOwn(dev) => KillKeepsRevoked(x.memory.refresh, dev, d);
    case _ =>
  }

  lemma KillKeepsRevoked(rs: seq<RefreshRecord>, dev: DeviceId, d: DeviceId)
    requires Revoked(rs, d)
    ensures Revoked(KillDevice(rs, dev), d)
  {
    var w :| 0 <= w < |rs| && rs[w].deviceId == d;
    assert KillDevice(rs, dev)[w].deviceId == d;
  }

  lemma RefreshKeepsRevoked(x: Host, h: Hash, n: Hash, e: Time, now: Time, d: DeviceId)
    requires Revoked(x.memory.refresh, d)
    ensures Revoked(RefreshStep(x, h, n, e, now).0.memory.refresh, d)
    ensures RefreshStep(x, h, n, e, now).1 ==> x.memory.refresh[Find(x.memory.refresh, h)].deviceId != d
  {
    var rs := x.memory.refresh;
    var i := Find(rs, h);
    if i < |rs| && Usable(rs[i], now) {
      var spent := rs[i := rs[i].(used := true)];
      var w :| 0 <= w < |rs| && rs[w].deviceId == d;
      assert spent[w].deviceId == d;
      AppendKeepsRevoked(spent, RefreshRecord(n, rs[i].deviceId, e, false, false), d);
    } else if i < |rs| {
      KillKeepsRevoked(rs, rs[i].deviceId, d);
    }
  }

  /** Whatever handlers run afterwards, whatever is enrolled on the command line, and however often
      the agent restarts: the device stays revoked, no refresh succeeds for it, and the gate serves
      no access token as it. */
  lemma {:induction false} RevokedForGood(x: Host, acts: seq<Action>, d: DeviceId)
    requires BothRevoked(x, d) && forall i | 0 <= i < |acts| && acts[i].Enrol? :: acts[i].device != d
    ensures var y := DoAll(x, acts);
      && BothRevoked(y, d)
      && (forall h, n, e, now :: RefreshStep(y, h, n, e, now).1 ==>
            y.memory.refresh[Find(y.memory.refresh, h)].deviceId != d)
      && (forall raw, granted, v :: Admit(raw, granted, v, y.memory.refresh) != Served(d))
    decreases |acts|
  {
    if acts == [] {
      forall h, n, e, now | RefreshStep(x, h, n, e, now).1
        ensures x.memory.refresh[Find(x.memory.refresh, h)].deviceId != d
      {
        RefreshKeepsRevoked(x, h, n, e, now, d);
      }
    } else {
      BothRevokedStay(x, acts[0], d);
      RevokedForGood(Do(x, acts[0]), acts[1..], d);
    }
  }

  /** A device that revokes itself is revoked in memory and on file, and no other is. */
  lemma RevokedOnRequest(x: Host, d: DeviceId, other: DeviceId)
    requires KnownDevice(x.memory.refresh, d) && other != d
    ensures BothRevoked(RevokeStep(x, d), d)
    ensures Revoked(RevokeStep(x, d).memory.refresh, other) <==> Revoked(x.memory.refresh, other)
    ensures Registered(RevokeStep(x, d).memory.devices, other) <==> Registered(x.memory.devices, other)
  {
    var rs := x.memory.refresh;
    RefreshProtocol.KillRevokes(rs, d);
    WithoutRegistered(x.memory.devices, d, other);
    var rs' := KillDevice(rs, d);
    assert forall i | 0 <= i < |rs| && rs[i].deviceId == other :: rs'[i] == rs[i];
    assert forall i | 0 <= i < |rs| :: rs'[i].deviceId == rs[i].deviceId;
  }

  // ----- The gate -----

  lemma GateServes(s: Signer, raw: string, unix: int, granted: bool, rs: seq<RefreshRecord>, d: Bytes)
    ensures Admit(raw, granted, s.Validate(raw, unix), rs) == Served(d) <==>
      granted && (exists t: Bytes :: Carries(s, raw, d, t) && InDate(t, unix)) && !Revoked(rs, d)
  {
    ValidateIff(s, raw, unix, d);
    EmptyCarriesNothing(s);
  }

  lemma GateShuts(s: Signer, raw: string, unix: int, granted: bool, rs: seq<RefreshRecord>)
    ensures Admit(raw, granted, s.Validate(raw, unix), rs) == DeviceRevoked <==>
      granted && exists d: Bytes, t: Bytes :: Carries(s, raw, d, t) && InDate(t, unix) && Revoked(rs, d)
  {
    EmptyCarriesNothing(s);
    if d: Bytes, t: Bytes :| Carries(s, raw, d, t) && InDate(t, unix) && Revoked(rs, d) {
      CarriedIsJudged(s, raw, d, t, unix);
    }
    if s.Validate(raw, unix).Accepted? {
      var d, t := JudgedIsCarried(s, raw, unix);
      CarriedIsJudged(s, raw, d, t, unix);
      assert InDate(t, unix);
    }
  }

  lemma GateDates(s: Signer, raw: string, unix: int, granted: bool, rs: seq<RefreshRecord>)
    ensures Admit(raw, granted, s.Validate(raw, unix), rs) == OldToken <==>
      granted && exists d: Bytes, t: Bytes :: Carries(s, raw, d, t) && OutOfDate(t, unix)
    ensures Admit(raw, granted, s.Validate(raw, unix), rs) == BadToken <==>
      raw != "" && granted && !exists d: Bytes, t: Bytes :: Carries(s, raw, d, t) && Parse(t).Some?
  {
    ValidateIff(s, raw, unix, "");
    EmptyCarriesNothing(s);
  }

  /** What every text gets, by what it carries: service exactly if it carries the correct code of
      the device and of a time not passed, the limiter grants it and the device is not revoked; and
      each of the five refusals exactly in its case. */
  lemma GateIff(s: Signer, raw: string, unix: int, granted: bool, rs: seq<RefreshRecord>, d: Bytes)
    ensures var a := Admit(raw, granted, s.Validate(raw, unix), rs);
      && (a == Served(d) <==>
            granted && (exists t: Bytes :: Carries(s, raw, d, t) && InDate(t, unix)) && !Revoked(rs, d))
      && (a == DeviceRevoked <==>
            granted && exists d': Bytes, t: Bytes :: Carries(s, raw, d', t) && InDate(t, unix) && Revoked(rs, d'))
      && (a == OldToken <==> granted && exists d': Bytes, t: Bytes :: Carries(s, raw, d', t) && OutOfDate(t, unix))
      && (a == BadToken <==>
            raw != "" && granted && !exists d': Bytes, t: Bytes :: Carries(s, raw, d', t) && Parse(t).Some?)
      && (a == Limited <==> raw != "" && !granted)
      && (a == NoToken <==> raw == "")
  {
    GateServes(s, raw, unix, granted, rs, d);
    GateShuts(s, raw, unix, granted, rs);
    GateDates(s, raw, unix, granted, rs);
  }

  lemma EmptyCarriesNothing(s: Signer)
    ensures forall d: Bytes, t: Bytes :: !Carries(s, "", d, t)
  {
  }

  /** A genuine token is refused as expired after its time, and one whose code is not that of what
      it signs is refused as invalid. */
  lemma WrongTokensRefused(s: Signer, d: Bytes, expiry: Int64, unix: int, rs: seq<RefreshRecord>, p: Bytes, sig: Bytes)
    ensures ':' !in d && expiry < unix ==>
      var raw := s.Generate(d, expiry);
      Admit(raw, true, s.Validate(raw, unix), rs) == OldToken
    ensures sig != s.mac(s.secret, p) ==>
      var forged := Encode(p) + ['.'] + Encode(sig);
      Admit(forged, true, s.Validate(forged, unix), rs) == BadToken
  {
    RoundTrip(s, d, expiry, unix);
    var head, tail := Encode(p), Encode(sig);
    var forged := head + ['.'] + tail;
    DecodeEncode(p);
    DecodeEncode(sig);
    IndexOfFirst(head, tail, '.');
    assert forged[..|head|] == head && forged[|head| + 1..] == tail;
  }

  /** A device's own token gets it in exactly while the token is in date, the device is not
      revoked and its rate limit has room. */
  lemma GenuineTokenServed(s: Signer, d: Bytes, expiry: Int64, unix: int, granted: bool, rs: seq<RefreshRecord>)
    requires ':' !in d
    ensures var raw := s.Generate(d, expiry);
      Admit(raw, granted, s.Validate(raw, unix), rs) == Served(d) <==> granted && unix <= expiry && !Revoked(rs, d)
  {
    RoundTrip(s, d, expiry, unix);
  }

  /** Once a spent refresh token has been presented and answered, the gate turns away every
      access token of its device, whoever made it and however long it would still run. */
  lemma SpentTokenShutsOut(ss: seq<RefreshProtocol.State>, acts: seq<RefreshProtocol.Action>, i: nat,
                           r: RefreshProtocol.RequestId, e: Time, now: Time, j: nat, l: nat,
                           s: Signer, raw: string, unix: int, granted: bool)
    requires RefreshProtocol.IsRun(ss, acts) && i < |acts| && acts[i] == RefreshProtocol.RotateStep(r, e, now)
    requires var k := Find(ss[i].fs.refresh, ss[i].handlers[r].hash);
      k < |ss[i].fs.refresh| && ss[i].fs.refresh[k].used
    requires i < j <= l < |ss| && r in ss[j].handlers && ss[j].handlers[r].Refused?
    ensures var d := ss[i].fs.refresh[Find(ss[i].fs.refresh, ss[i].handlers[r].hash)].deviceId;
      Admit(raw, granted, s.Validate(raw, unix), ss[l].fs.refresh) != Served(d)
  {
    RefreshProtocol.SpentTokenIsFinal(ss, acts, i, r, e, now, j);
  }
}
