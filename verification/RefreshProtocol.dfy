/** The refresh protocol as it really runs: `_refreshAccessToken` calls in the app, refresh
    handlers in the agent and other clients, interleaved at every point where they can be.

    A token and its hash are the same thing here (hashing is injective), and a server the app
    knows goes by the device ID it was enrolled as. */
module RefreshProtocol {
  import opened AuthStore
  import opened Wrappers
  import opened TokenFamilies

  type CallId = nat
  type RequestId = nat

  /** How far `handleRefresh` has got with a request. */
  datatype Handler =
    | Received(hash: Hash, next: Hash)
    | Failed(hash: Hash)
    | Found(device: DeviceId)
    | Granted(token: Hash)
    | Refused

  /** How far a call of `_refreshAccessToken` has got. */
  datatype Call =
    | Waiting(server: DeviceId)
    | Holding(server: DeviceId)
    | Sent(server: DeviceId, token: Hash, request: RequestId)
    | Answered(server: DeviceId, next: Hash)
    | Saved(server: DeviceId)
    | Returned

  /** `lock` is the completer field, named after the call that created it; the code only looks
      at whether it is null. `mentioned` is every token that has ever been presented or made. */
  datatype State = State(
    fs: FileState,
    handlers: map<RequestId, Handler>,
    enrolling: set<DeviceId>,
    mentioned: set<Hash>,
    stored: map<DeviceId, Hash>,
    lock: Option<CallId>,
    calls: map<CallId, Call>)

  const INITIAL := State(EMPTY, map[], {}, {}, map[], None, map[])

  datatype Action =
    // The app
    | AppEnrols(device: DeviceId, name: string, hash: Hash, expiresAt: Time, now: Time)
    | Enter(call: CallId, server: DeviceId)
    | Acquire(call: CallId)
    | GiveUp(call: CallId)
    | Send(call: CallId, request: RequestId, next: Hash)
    | Hear(call: CallId)
    | Save(call: CallId)
    | Leave(call: CallId)
    // The refresh handlers of the agent
    | RotateStep(request: RequestId, expiresAt: Time, now: Time)
    | LookupStep(request: RequestId)
    | RevokeStep(request: RequestId)
    // Other clients and requests
    | OtherRequest(request: RequestId, hash: Hash, next: Hash)
    | StartEnrol(device: DeviceId, name: string, now: Time)
    | FinishEnrol(device: DeviceId, hash: Hash, expiresAt: Time, now: Time)
    | RevokeRequest(device: DeviceId)
    | RevokeAllRequest

  predicate NewDevice(s: State, d: DeviceId) { !KnownDevice(s.fs.refresh, d) && d !in s.enrolling }

  predicate Enabled(s: State, a: Action) {
    match a
    case AppEnrols(d, _, h, _, _) => NewDevice(s, d) && h !in s.mentioned
    case Enter(c, _) => c !in s.calls
    case Acquire(c) => c in s.calls && s.calls[c].Waiting? && s.lock == None
    case GiveUp(c) => c in s.calls && s.calls[c].Holding?
    case Send(c, r, n) =>
      c in s.calls && s.calls[c].Holding? && s.calls[c].server in s.stored && r !in s.handlers && n !in s.mentioned
    case Hear(c) =>
      && c in s.calls && s.calls[c].Sent? && s.calls[c].request in s.handlers
      && var h := s.handlers[s.calls[c].request]; h.Granted? || h.Refused?
    case Save(c) => c in s.calls && s.calls[c].Answered?
    case Leave(c) => c in s.calls && s.calls[c].Saved?
    case RotateStep(r, _, _) => r in s.handlers && s.handlers[r].Received?
    case LookupStep(r) => r in s.handlers && s.handlers[r].Failed?
    case RevokeStep(r) => r in s.handlers && s.handlers[r].Found?
    case OtherRequest(r, h, n) => r !in s.handlers && n !in s.mentioned && n != h
    case StartEnrol(d, _, _) => NewDevice(s, d)
    case FinishEnrol(d, h, _, _) => d in s.enrolling && h !in s.mentioned
    case RevokeRequest(_) => true
    case RevokeAllRequest => true
  }

  function Next(s: State, a: Action): State
    requires Enabled(s, a)
  {
    match a
    case AppEnrols(d, name, h, e, now) =>
      s.(fs := WithRefresh(WithDevice(s.fs, d, name, now), h, d, e, now),
         mentioned := s.mentioned + {h}, stored := s.stored[d := h])
    case Enter(c, d) => s.(calls := s.calls[c := Waiting(d)])
    case Acquire(c) => s.(lock := Some(c), calls := s.calls[c := Holding(s.calls[c].server)])
    case GiveUp(c) => s.(lock := None, calls := s.calls[c := Returned])
    case Send(c, r, n) =>
      var d := s.calls[c].server;
      s.(calls := s.calls[c := Sent(d, s.stored[d], r)],
         handlers := s.handlers[r := Received(s.stored[d], n)], mentioned := s.mentioned + {n})
    case Hear(c) =>
      (match s.handlers[s.calls[c].request]
       case Granted(n) => s.(calls := s.calls[c := Answered(s.calls[c].server, n)])
       case _ => s.(lock := None, calls := s.calls[c := Returned]))
    case Save(c) =>
      var Answered(d, n) := s.calls[c];
      s.(stored := s.stored[d := n], calls := s.calls[c := Saved(d)])
    case Leave(c) => s.(lock := None, calls := s.calls[c := Returned])
    case RotateStep(r, e, now) =>
      var Received(h, n) := s.handlers[r];
      var (fs, answer) := Rotate(s.fs, h, n, e, now);
      s.(fs := fs, handlers := s.handlers[r := if answer.Some? then Granted(n) else Failed(h)])
    case LookupStep(r) =>
      var i := Find(s.fs.refresh, s.handlers[r].hash);
      s.(handlers := s.handlers[r := if i < |s.fs.refresh| then Found(s.fs.refresh[i].deviceId) else Refused])
    case RevokeStep(r) =>
      s.(fs := Revoke(s.fs, s.handlers[r].device), handlers := s.handlers[r := Refused])
    case OtherRequest(r, h, n) =>
      s.(handlers := s.handlers[r := Received(h, n)], mentioned := s.mentioned + {h, n})
    case StartEnrol(d, name, now) =>
      s.(fs := WithDevice(s.fs, d, name, now), enrolling := s.enrolling + {d})
    case FinishEnrol(d, h, e, now) =>
      s.(fs := WithRefresh(s.fs, h, d, e, now), enrolling := s.enrolling - {d}, mentioned := s.mentioned + {h})
    case RevokeRequest(d) => s.(fs := Revoke(s.fs, d))
    case RevokeAllRequest => s.(fs := RevokeEverything(s.fs))
  }

  ghost predicate IsRun(ss: seq<State>, acts: seq<Action>) {
    && |ss| == |acts| + 1
    && ss[0] == INITIAL
    && forall k | 0 <= k < |acts| :: Enabled(ss[k], acts[k]) && ss[k + 1] == Next(ss[k], acts[k])
  }

  // ----- What every run keeps -----

  ghost predicate HandlerOk(s: State, h: Handler) {
    match h
    case Received(x, n) => x in s.mentioned && n in s.mentioned && !KnownHash(s.fs.refresh, n) && x != n
    case Failed(x) => x in s.mentioned
    case Found(d) => KnownDevice(s.fs.refresh, d)
    case _ => true
  }

  ghost predicate Refinable(rs: seq<RefreshRecord>) { exists m :: Refines(rs, m) }

  ghost predicate RecordsMentioned(s: State) {
    forall i | 0 <= i < |s.fs.refresh| :: s.fs.refresh[i].hash in s.mentioned
  }

  ghost predicate HandlersOk(s: State) { forall r | r in s.handlers :: HandlerOk(s, s.handlers[r]) }

  /** No two rotations are going to make the same token. */
  ghost predicate NextsDiffer(hs: map<RequestId, Handler>) {
    forall r, q | r in hs && q in hs && r != q && hs[r].Received? && hs[q].Received? :: hs[r].next != hs[q].next
  }

  ghost predicate EnrollingNew(s: State) { forall d | d in s.enrolling :: !KnownDevice(s.fs.refresh, d) }

  ghost predicate Sound(s: State) {
    RecordsMentioned(s) && HandlersOk(s) && NextsDiffer(s.handlers) && EnrollingNew(s)
  }

  /** Records are only ever appended and flagged: hash and device of each stay put, flags only go up. */
  ghost predicate Grows(rs: seq<RefreshRecord>, rs': seq<RefreshRecord>) {
    && |rs| <= |rs'|
    && forall i | 0 <= i < |rs| ::
         && rs'[i].hash == rs[i].hash && rs'[i].deviceId == rs[i].deviceId && rs'[i].expiresAt == rs[i].expiresAt
         && (rs[i].used ==> rs'[i].used) && (rs[i].revoked ==> rs'[i].revoked)
  }

  lemma RefreshOnly(fs: FileState, op: Op)
    requires Refinable(fs.refresh) && Fresh(fs, op)
    ensures Refinable(Apply(fs, op).0.refresh)
  {
    var m :| Refines(fs.refresh, m);
    RecordsStep(fs, m, op);
    assert Refines(Apply(fs, op).0.refresh, Meaning(m, op).0);
  }

  /** At most one record is added, for a new device or in succession to an unrevoked record. */
  ghost predicate Follows(rs: seq<RefreshRecord>, rs': seq<RefreshRecord>) {
    && Grows(rs, rs') && |rs'| <= |rs| + 1
    && (|rs'| > |rs| ==>
          var d := rs'[|rs|].deviceId;
          !KnownDevice(rs, d) || exists i | 0 <= i < |rs| :: rs[i].deviceId == d && !rs[i].revoked)
  }

  lemma RotateFollows(fs: FileState, h: Hash, n: Hash, e: Time, now: Time)
    ensures Follows(fs.refresh, Rotate(fs, h, n, e, now).0.refresh)
  {
  }

  lemma EnrolFollows(rs: seq<RefreshRecord>, h: Hash, d: DeviceId, e: Time)
    ensures Grows(rs, rs + [RefreshRecord(h, d, e, false, false)])
    ensures !KnownDevice(rs, d) ==> Follows(rs, rs + [RefreshRecord(h, d, e, false, false)])
  {
  }

  lemma RevokeFollows(rs: seq<RefreshRecord>, d: DeviceId)
    ensures Follows(rs, KillDevice(rs, d)) && Follows(rs, KillEvery(rs)) && Follows(rs, rs)
  {
  }

  lemma StepGrows(s: State, a: Action)
    requires Enabled(s, a)
    ensures Grows(s.fs.refresh, Next(s, a).fs.refresh)
  {
    var rs := s.fs.refresh;
    RevokeFollows(rs, "");
    match a
    case RotateStep(r, e, now) => RotateFollows(s.fs, s.handlers[r].hash, s.handlers[r].next, e, now);
    case AppEnrols(d, _, h, e, _) => EnrolFollows(rs, h, d, e);
    case FinishEnrol(d, h, e, _) => EnrolFollows(rs, h, d, e);
    case RevokeStep(r) => RevokeFollows(rs, s.handlers[r].device);
    case RevokeRequest(d) => RevokeFollows(rs, d);
    case _ =>
  }

  lemma StepFollows(s: State, a: Action)
    requires Sound(s) && Enabled(s, a)
    ensures Follows(s.fs.refresh, Next(s, a).fs.refresh)
  {
    var rs := s.fs.refresh;
    RevokeFollows(rs, "");
    match a
    case RotateStep(r, e, now) => RotateFollows(s.fs, s.handlers[r].hash, s.handlers[r].next, e, now);
    case AppEnrols(d, _, h, e, _) => EnrolFollows(rs, h, d, e);
    case FinishEnrol(d, h, e, _) => EnrolFollows(rs, h, d, e);
    case RevokeStep(r) => RevokeFollows(rs, s.handlers[r].device);
    case RevokeRequest(d) => RevokeFollows(rs, d);
    case _ =>
  }

  ghost predicate SameNames(rs: seq<RefreshRecord>, rs': seq<RefreshRecord>) {
    |rs| <= |rs'| && forall i | 0 <= i < |rs| :: rs'[i].hash == rs[i].hash && rs'[i].deviceId == rs[i].deviceId
  }

  lemma HashAfter(rs: seq<RefreshRecord>, rs': seq<RefreshRecord>, h: Hash)
    requires SameNames(rs, rs') && |rs'| <= |rs| + 1
    ensures KnownHash(rs', h) <==> KnownHash(rs, h) || (|rs'| > |rs| && rs'[|rs|].hash == h)
  {
    if KnownHash(rs, h) {
      var i :| 0 <= i < |rs| && rs[i].hash == h;
      assert rs'[i].hash == h;
    }
  }

  lemma DeviceAfter(rs: seq<RefreshRecord>, rs': seq<RefreshRecord>, d: DeviceId)
    requires SameNames(rs, rs') && |rs'| <= |rs| + 1
    ensures KnownDevice(rs', d) <==> KnownDevice(rs, d) || (|rs'| > |rs| && rs'[|rs|].deviceId == d)
  {
    if KnownDevice(rs, d) {
      var i :| 0 <= i < |rs| && rs[i].deviceId == d;
      assert rs'[i].deviceId == d;
    }
  }

  lemma UnknownIfUnmentioned(s: State, h: Hash)
    requires Sound(s) && h !in s.mentioned
    ensures !KnownHash(s.fs.refresh, h)
  {
  }

  /** A record with a hash no pending rotation is going to use. */
  lemma SoundAppend(s: State, s': State, x: RefreshRecord)
    requires Sound(s)
    requires var rs, rs' := s.fs.refresh, s'.fs.refresh;
      |rs'| == |rs| + 1 && rs'[|rs|] == x && Grows(rs, rs')
    requires s.mentioned <= s'.mentioned && x.hash in s'.mentioned
    requires s'.enrolling <= s.enrolling && x.deviceId !in s'.enrolling
    requires forall q | q in s'.handlers ::
      s'.handlers[q].Granted? || (q in s.handlers && s'.handlers[q] == s.handlers[q])
    requires forall q | q in s'.handlers && s'.handlers[q].Received? :: s'.handlers[q].next != x.hash
    ensures Sound(s')
  {
    var rs, rs' := s.fs.refresh, s'.fs.refresh;
    forall i | 0 <= i < |rs'| ensures rs'[i].hash in s'.mentioned {
      if i < |rs| { assert rs[i].hash in s.mentioned; }
    }
    forall q | q in s'.handlers ensures HandlerOk(s', s'.handlers[q]) {
      if !s'.handlers[q].Granted? {
        HandlerStaysOk(s, s', s.handlers[q]);
      }
    }
    forall d | d in s'.enrolling ensures !KnownDevice(rs', d) {
      DeviceAfter(rs, rs', d);
    }
  }

  lemma HandlerStaysOk(s: State, s': State, h: Handler)
    requires HandlerOk(s, h) && s.mentioned <= s'.mentioned
    requires var rs, rs' := s.fs.refresh, s'.fs.refresh;
      && SameNames(rs, rs') && |rs'| <= |rs| + 1
      && (h.Received? && |rs'| > |rs| ==> h.next != rs'[|rs|].hash)
    ensures HandlerOk(s', h)
  {
    match h
    case Received(_, n) => HashAfter(s.fs.refresh, s'.fs.refresh, n);
    case Found(d) => DeviceAfter(s.fs.refresh, s'.fs.refresh, d);
    case _ =>
  }

  lemma SoundRotate(s: State, r: RequestId, e: Time, now: Time)
    requires Sound(s) && r in s.handlers && s.handlers[r].Received?
    ensures Sound(Next(s, RotateStep(r, e, now)))
  {
    var Received(h, n) := s.handlers[r];
    assert HandlerOk(s, s.handlers[r]);
    var i := Find(s.fs.refresh, h);
    if i < |s.fs.refresh| && Usable(s.fs.refresh[i], now) {
      SoundRotated(s, Next(s, RotateStep(r, e, now)), r, i, e, now);
    } else {
      SoundMovesOn(s, r, Failed(h), Next(s, RotateStep(r, e, now)));
    }
  }

  lemma SoundRotated(s: State, s': State, r: RequestId, i: nat, e: Time, now: Time)
    requires Sound(s) && r in s.handlers && s.handlers[r].Received?
    requires var rs := s.fs.refresh; i == Find(rs, s.handlers[r].hash) && i < |rs| && Usable(rs[i], now)
    requires s'.fs == Rotate(s.fs, s.handlers[r].hash, s.handlers[r].next, e, now).0
    requires s'.handlers == s.handlers[r := Granted(s.handlers[r].next)]
    requires s'.mentioned == s.mentioned && s'.enrolling == s.enrolling
    ensures Sound(s')
  {
    var Received(h, n) := s.handlers[r];
    var rs := s.fs.refresh;
    assert HandlerOk(s, s.handlers[r]);
    RotateFollows(s.fs, h, n, e, now);
    assert KnownDevice(rs, rs[i].deviceId);
    SoundAppend(s, s', RefreshRecord(n, rs[i].deviceId, e, false, false));
  }

  /** A handler moves on with the store untouched. */
  lemma SoundMovesOn(s: State, r: RequestId, h: Handler, s': State)
    requires Sound(s) && r in s.handlers && HandlerOk(s, h) && !h.Received?
    requires s'.fs == s.fs && s'.mentioned == s.mentioned && s'.enrolling == s.enrolling
    requires s'.handlers == s.handlers[r := h]
    ensures Sound(s')
  {
    forall q | q in s'.handlers ensures HandlerOk(s', s'.handlers[q]) {
      if q != r { assert HandlerOk(s, s.handlers[q]); }
    }
  }

  lemma SoundRevoke(s: State, rs': seq<RefreshRecord>, s': State)
    requires Sound(s) && Grows(s.fs.refresh, rs') && |rs'| == |s.fs.refresh|
    requires s'.fs.refresh == rs' && s'.mentioned == s.mentioned && s'.enrolling == s.enrolling
    requires forall q | q in s'.handlers ::
      s'.handlers[q] == Refused || (q in s.handlers && s'.handlers[q] == s.handlers[q])
    ensures Sound(s')
  {
    forall q | q in s'.handlers ensures HandlerOk(s', s'.handlers[q]) {
      if s'.handlers[q] != Refused { HandlerStaysOk(s, s', s.handlers[q]); }
    }
    forall d | d in s'.enrolling ensures !KnownDevice(rs', d) {
      DeviceAfter(s.fs.refresh, rs', d);
    }
  }

  lemma SoundEnrolled(s: State, d: DeviceId, h: Hash, e: Time, s': State)
    requires Sound(s) && h !in s.mentioned && !KnownDevice(s.fs.refresh, d)
    requires s'.fs.refresh == s.fs.refresh + [RefreshRecord(h, d, e, false, false)]
    requires s'.mentioned == s.mentioned + {h} && s'.enrolling <= s.enrolling && d !in s'.enrolling
    requires s'.handlers == s.handlers
    ensures Sound(s')
  {
    var rs := s.fs.refresh;
    UnknownIfUnmentioned(s, h);
    var x := RefreshRecord(h, d, e, false, false);
    forall q | q in s'.handlers && s'.handlers[q].Received? ensures s'.handlers[q].next != h {
      assert HandlerOk(s, s.handlers[q]);
    }
    SoundAppend(s, s', x);
  }

  lemma SoundNewRequest(s: State, r: RequestId, h: Hash, n: Hash, s': State)
    requires Sound(s) && r !in s.handlers && n !in s.mentioned && n != h
    requires s'.fs == s.fs && s'.enrolling == s.enrolling && s'.mentioned == s.mentioned + {h, n}
    requires s'.handlers == s.handlers[r := Received(h, n)]
    ensures Sound(s')
  {
    UnknownIfUnmentioned(s, n);
    forall q | q in s'.handlers ensures HandlerOk(s', s'.handlers[q]) {
      if q != r { assert HandlerOk(s, s.handlers[q]); }
    }
    forall q | q in s.handlers && s.handlers[q].Received? ensures s.handlers[q].next != n {
      assert HandlerOk(s, s.handlers[q]);
    }
  }

  lemma SoundLookup(s: State, r: RequestId)
    requires Sound(s) && r in s.handlers && s.handlers[r].Failed?
    ensures Sound(Next(s, LookupStep(r)))
  {
    var rs, i := s.fs.refresh, Find(s.fs.refresh, s.handlers[r].hash);
    if i < |rs| {
      assert KnownDevice(rs, rs[i].deviceId);
      SoundMovesOn(s, r, Found(rs[i].deviceId), Next(s, LookupStep(r)));
    } else {
      SoundMovesOn(s, r, Refused, Next(s, LookupStep(r)));
    }
  }

  /** The app only ever presents tokens that have been made. */
  ghost predicate StoredMentioned(s: State) {
    forall d | d in s.stored :: s.stored[d] in s.mentioned
  }

  ghost predicate CallsMentioned(s: State) {
    forall c | c in s.calls && s.calls[c].Answered? :: s.calls[c].next in s.mentioned
  }

  ghost predicate GrantsMentioned(s: State) {
    forall r | r in s.handlers && s.handlers[r].Granted? :: s.handlers[r].token in s.mentioned
  }

  ghost predicate Consistent(s: State) {
    && Refinable(s.fs.refresh) && Sound(s)
    && StoredMentioned(s) && CallsMentioned(s) && GrantsMentioned(s)
  }

  lemma RefinableStep(s: State, a: Action)
    requires Sound(s) && Refinable(s.fs.refresh) && Enabled(s, a)
    ensures Refinable(Next(s, a).fs.refresh)
  {
    match a
    case AppEnrols(d, name, h, e, now) =>
      UnknownIfUnmentioned(s, h);
      RefreshOnly(s.fs, EnrolDevice(d, name, h, e, now));
    case FinishEnrol(d, h, e, now) =>
      UnknownIfUnmentioned(s, h);
      RefreshOnly(s.fs, EnrolDevice(d, "", h, e, now));
    case RotateStep(r, e, now) =>
      assert HandlerOk(s, s.handlers[r]);
      RefreshOnly(s.fs, RotateToken(s.handlers[r].hash, s.handlers[r].next, e, now));
    case RevokeStep(r) => RefreshOnly(s.fs, RevokeOne(s.handlers[r].device));
    case RevokeRequest(d) => RefreshOnly(s.fs, RevokeOne(d));
    case RevokeAllRequest => RefreshOnly(s.fs, RevokeAll);
    case _ =>
  }

  lemma MentionedStep(s: State, a: Action)
    requires Consistent(s) && Enabled(s, a)
    ensures var s' := Next(s, a); StoredMentioned(s') && CallsMentioned(s') && GrantsMentioned(s')
  {
    if a.RotateStep? { assert HandlerOk(s, s.handlers[a.request]); }
  }

  lemma ConsistentStep(s: State, a: Action)
    requires Consistent(s) && Enabled(s, a)
    ensures Consistent(Next(s, a))
  {
    MentionedStep(s, a);
    RefinableStep(s, a);
    SoundStep(s, a);
  }

  lemma SoundStep(s: State, a: Action)
    requires Sound(s) && StoredMentioned(s) && Enabled(s, a)
    ensures Sound(Next(s, a))
  {
    var s' := Next(s, a);
    match a
    case AppEnrols(d, _, h, e, _) => SoundEnrolled(s, d, h, e, s');
    case FinishEnrol(d, h, e, _) => SoundEnrolled(s, d, h, e, s');
    case Send(c, r, n) => SoundNewRequest(s, r, s.stored[s.calls[c].server], n, s');
    case OtherRequest(r, h, n) => SoundNewRequest(s, r, h, n, s');
    case RotateStep(r, e, now) => SoundRotate(s, r, e, now);
    case LookupStep(r) => SoundLookup(s, r);
    case RevokeStep(r) => SoundRevoke(s, s'.fs.refresh, s');
    case RevokeRequest(d) => SoundRevoke(s, s'.fs.refresh, s');
    case RevokeAllRequest => SoundRevoke(s, s'.fs.refresh, s');
    case _ => SoundSame(s, s');
  }

  lemma SoundSame(s: State, s': State)
    requires Sound(s) && s'.fs.refresh == s.fs.refresh && s'.mentioned == s.mentioned && s'.handlers == s.handlers
    requires forall d | d in s'.enrolling :: !KnownDevice(s.fs.refresh, d)
    ensures Sound(s')
  {
    forall q | q in s'.handlers ensures HandlerOk(s', s'.handlers[q]) {
      assert HandlerOk(s, s.handlers[q]);
    }
  }

  lemma RunStep(ss: seq<State>, acts: seq<Action>, k: nat)
    requires IsRun(ss, acts) && k < |acts|
    ensures Enabled(ss[k], acts[k]) && ss[k + 1] == Next(ss[k], acts[k])
  {
  }

  lemma {:induction false} RunConsistent(ss: seq<State>, acts: seq<Action>, k: nat)
    requires IsRun(ss, acts) && k < |ss|
    ensures Consistent(ss[k])
  {
    if k == 0 {
      assert Refines([], map[]);
    } else {
      var j := k - 1;
      RunConsistent(ss, acts, j);
      RunStep(ss, acts, j);
      ConsistentStep(ss[j], acts[j]);
    }
  }

  // ----- A spent token ends its device -----

  /** The request `r` was refused with a spent token of `d`, and is on its way to revoke `d`. */
  ghost predicate Convicts(s: State, r: RequestId, d: DeviceId) {
    && r in s.handlers
    && match s.handlers[r]
       case Failed(h) => var i := Find(s.fs.refresh, h); i < |s.fs.refresh| && s.fs.refresh[i].deviceId == d
       case Found(x) => x == d
       case Refused => Revoked(s.fs.refresh, d)
       case _ => false
  }

  lemma FindStays(rs: seq<RefreshRecord>, rs': seq<RefreshRecord>, h: Hash)
    requires Grows(rs, rs') && Find(rs, h) < |rs|
    ensures Find(rs', h) == Find(rs, h)
  {
    var i, j := Find(rs, h), Find(rs', h);
    assert rs'[i].hash == h;
    assert j < |rs| && rs[j].hash == h;
  }

  lemma RevokedStays(s: State, a: Action, d: DeviceId)
    requires Sound(s) && Enabled(s, a) && Revoked(s.fs.refresh, d)
    ensures Revoked(Next(s, a).fs.refresh, d)
  {
    StepFollows(s, a);
    RevokedFollows(s.fs.refresh, Next(s, a).fs.refresh, d);
  }

  lemma RevokedFollows(rs: seq<RefreshRecord>, rs': seq<RefreshRecord>, d: DeviceId)
    requires Follows(rs, rs') && Revoked(rs, d)
    ensures Revoked(rs', d)
  {
    var w :| 0 <= w < |rs| && rs[w].deviceId == d;
    assert rs'[w].deviceId == d;
    assert KnownDevice(rs, d);
    forall i | 0 <= i < |rs'| && rs'[i].deviceId == d ensures rs'[i].revoked {
      if i < |rs| { assert rs[i].deviceId == d; }
    }
  }

  lemma ConvictsStep(s: State, a: Action, r: RequestId, d: DeviceId)
    requires Sound(s) && Enabled(s, a) && Convicts(s, r, d)
    ensures Convicts(Next(s, a), r, d)
  {
    var rs, rs' := s.fs.refresh, Next(s, a).fs.refresh;
    match s.handlers[r]
    case Failed(h) =>
      StepGrows(s, a);
      FindStays(rs, rs', h);
    case Found(_) =>
      assert HandlerOk(s, s.handlers[r]);
      if a == RevokeStep(r) { KillRevokes(rs, d); }
    case Refused => RevokedStays(s, a, d);
  }

  lemma KillRevokes(rs: seq<RefreshRecord>, d: DeviceId)
    requires KnownDevice(rs, d)
    ensures Revoked(KillDevice(rs, d), d)
  {
    var w :| 0 <= w < |rs| && rs[w].deviceId == d;
    assert KillDevice(rs, d)[w].deviceId == d;
  }

  lemma {:induction false} ConvictsForever(ss: seq<State>, acts: seq<Action>, i: nat, j: nat, r: RequestId, d: DeviceId)
    requires IsRun(ss, acts) && i <= j < |ss| && Convicts(ss[i], r, d)
    ensures Convicts(ss[j], r, d)
  {
    if i == j {
    } else {
      var k := j - 1;
      ConvictsForever(ss, acts, i, k, r, d);
      RunConsistent(ss, acts, k);
      RunStep(ss, acts, k);
      ConvictsStep(ss[k], acts[k], r, d);
    }
  }

  lemma {:induction false} RevokedForever(ss: seq<State>, acts: seq<Action>, i: nat, j: nat, d: DeviceId)
    requires IsRun(ss, acts) && i <= j < |ss| && Revoked(ss[i].fs.refresh, d)
    ensures Revoked(ss[j].fs.refresh, d)
  {
    if i == j {
    } else {
      var k := j - 1;
      RevokedForever(ss, acts, i, k, d);
      RunConsistent(ss, acts, k);
      RunStep(ss, acts, k);
      RevokedStays(ss[k], acts[k], d);
    }
  }

  /** Once a request with a spent token has been answered, the device it belonged to is revoked
      for good: whatever else runs in between the three steps of the handler and afterwards, no
      rotation for the device ever succeeds again. */
  lemma SpentTokenIsFinal(ss: seq<State>, acts: seq<Action>, i: nat, r: RequestId, e: Time, now: Time, j: nat)
    requires IsRun(ss, acts) && i < |acts| && acts[i] == RotateStep(r, e, now)
    requires var k := Find(ss[i].fs.refresh, ss[i].handlers[r].hash);
      k < |ss[i].fs.refresh| && ss[i].fs.refresh[k].used
    requires i < j < |ss| && r in ss[j].handlers && ss[j].handlers[r].Refused?
    ensures var d := ss[i].fs.refresh[Find(ss[i].fs.refresh, ss[i].handlers[r].hash)].deviceId;
      forall l | j <= l < |ss| ::
        && Revoked(ss[l].fs.refresh, d)
        && forall h, n, e', now' :: Rotate(ss[l].fs, h, n, e', now').1 != Some(d)
  {
    var k := Find(ss[i].fs.refresh, ss[i].handlers[r].hash);
    var d := ss[i].fs.refresh[k].deviceId;
    assert ss[i + 1] == Next(ss[i], acts[i]);
    assert Convicts(ss[i + 1], r, d);
    ConvictsForever(ss, acts, i + 1, j, r, d);
    forall l | j <= l < |ss| ensures Revoked(ss[l].fs.refresh, d) {
      RevokedForever(ss, acts, j, l, d);
    }
  }

  // ----- The app never convicts itself -----

  predicate Active(c: Call) { c.Holding? || c.Sent? || c.Answered? || c.Saved? }

  /** The request the lock holder is waiting for. */
  function InFlight(s: State): Option<RequestId> {
    if s.lock.Some? && s.lock.value in s.calls && s.calls[s.lock.value].Sent?
    then Some(s.calls[s.lock.value].request) else None
  }

  ghost predicate AppToken(s: State, h: Hash) {
    exists i | 0 <= i < |s.fs.refresh| :: s.fs.refresh[i].hash == h && s.fs.refresh[i].deviceId in s.stored
  }

  ghost predicate Upcoming(s: State, h: Hash) {
    var r := InFlight(s);
    r.Some? && r.value in s.handlers && s.handlers[r.value].Received? && s.handlers[r.value].next == h
  }

  /** Not a token of one of the app's devices, made or in the making. */
  ghost predicate Foreign(s: State, h: Hash) { !AppToken(s, h) && !Upcoming(s, h) }

  /** What the rest of the world owes the app: other clients present none of its tokens, nobody
      else revokes its devices, and its tokens are used before they expire. */
  ghost predicate Assumed(s: State, a: Action) {
    match a
    case OtherRequest(_, h, _) => Foreign(s, h)
    case RotateStep(r, _, now) =>
      r in s.handlers && s.handlers[r].Received? ==>
        forall i | 0 <= i < |s.fs.refresh| && s.fs.refresh[i].deviceId in s.stored
                   && s.fs.refresh[i].hash == s.handlers[r].hash :: now <= s.fs.refresh[i].expiresAt
    case RevokeRequest(d) => d !in s.stored
    case RevokeAllRequest => false
    case _ => true
  }

  ghost predicate Live(rs: seq<RefreshRecord>, d: DeviceId, h: Hash) {
    exists i | 0 <= i < |rs| :: rs[i].deviceId == d && rs[i].hash == h && !rs[i].used && !rs[i].revoked
  }

  /** The newest token of the app's device `d`: the stored one, unless its successor has been
      granted and not saved yet. */
  function Newest(s: State, d: DeviceId): Hash
    requires d in s.stored
  {
    if s.lock.Some? && s.lock.value in s.calls then
      match s.calls[s.lock.value]
      case Sent(x, _, r) =>
        if x == d && r in s.handlers && s.handlers[r].Granted? then s.handlers[r].token else s.stored[d]
      case Answered(x, n) => if x == d then n else s.stored[d]
      case _ => s.stored[d]
    else s.stored[d]
  }

  ghost predicate LockOk(s: State) {
    && (s.lock.Some? ==> s.lock.value in s.calls)
    && forall c | c in s.calls :: Active(s.calls[c]) <==> s.lock == Some(c)
  }

  ghost predicate FlightOk(s: State) {
    s.lock.Some? && s.lock.value in s.calls ==>
      match s.calls[s.lock.value]
      case Sent(d, t, r) =>
        && d in s.stored && s.stored[d] == t && r in s.handlers
        && (s.handlers[r].Granted? || (s.handlers[r].Received? && s.handlers[r].hash == t))
      case Answered(d, _) => d in s.stored
      case _ => true
  }

  ghost predicate HandlerForeign(s: State, h: Handler) {
    match h
    case Received(x, _) => Foreign(s, x)
    case Failed(x) => Foreign(s, x)
    case Found(d) => d !in s.stored
    case _ => true
  }

  /** No request but the app's own carries a token of the app's, or is about to revoke its device. */
  ghost predicate OthersForeign(s: State) {
    forall r | r in s.handlers && InFlight(s) != Some(r) :: HandlerForeign(s, s.handlers[r])
  }

  ghost predicate StoredLive(s: State) { forall d | d in s.stored :: Live(s.fs.refresh, d, Newest(s, d)) }

  ghost predicate Guarded(s: State) {
    LockOk(s) && FlightOk(s) && OthersForeign(s) && StoredLive(s)
  }

  lemma ForeignStays(s: State, s': State, x: Hash)
    requires Foreign(s, x) && !Upcoming(s', x)
    requires var rs, rs' := s.fs.refresh, s'.fs.refresh;
      && SameNames(rs, rs') && |rs'| <= |rs| + 1
      && (forall k | 0 <= k < |rs| && rs[k].deviceId in s'.stored :: rs[k].deviceId in s.stored)
      && (|rs'| > |rs| ==> rs'[|rs|].hash != x || rs'[|rs|].deviceId !in s'.stored)
    ensures Foreign(s', x)
  {
    var rs, rs' := s.fs.refresh, s'.fs.refresh;
    forall k | 0 <= k < |rs'| && rs'[k].hash == x ensures rs'[k].deviceId !in s'.stored {
      if k < |rs| { assert rs'[k].hash == rs[k].hash; }
    }
  }

  lemma LiveStays(rs: seq<RefreshRecord>, rs': seq<RefreshRecord>, d: DeviceId, h: Hash)
    requires Live(rs, d, h) && |rs| <= |rs'|
    requires forall k | 0 <= k < |rs| && rs[k].deviceId == d :: rs'[k] == rs[k]
    ensures Live(rs', d, h)
  {
    var i :| 0 <= i < |rs| && rs[i].deviceId == d && rs[i].hash == h && !rs[i].used && !rs[i].revoked;
    assert rs'[i] == rs[i];
  }

  predicate InApp(a: Action) { a.Enter? || a.Acquire? || a.GiveUp? || a.Hear? || a.Save? || a.Leave? }

  lemma LockStep(s: State, a: Action)
    requires LockOk(s) && FlightOk(s) && Enabled(s, a) && InApp(a)
    ensures LockOk(Next(s, a)) && FlightOk(Next(s, a))
    ensures a.Save? ==> s.calls[a.call].server in s.stored
    ensures a.Hear? ==> InFlight(s) == Some(s.calls[a.call].request)
  {
    assert a.call in s.calls && Active(s.calls[a.call]) ==> s.lock == Some(a.call);
  }

  lemma OthersStep(s: State, a: Action)
    requires Guarded(s) && Enabled(s, a) && InApp(a)
    ensures OthersForeign(Next(s, a))
  {
    var s' := Next(s, a);
    LockStep(s, a);
    forall r | r in s'.handlers && InFlight(s') != Some(r) ensures HandlerForeign(s', s'.handlers[r]) {
      if InFlight(s) != Some(r) {
        assert HandlerForeign(s, s.handlers[r]);
        match s.handlers[r]
        case Received(y, _) => ForeignStays(s, s', y);
        case Failed(y) => ForeignStays(s, s', y);
        case _ =>
      }
    }
  }

  lemma LiveStep(s: State, a: Action)
    requires Guarded(s) && Enabled(s, a) && InApp(a)
    ensures StoredLive(Next(s, a))
  {
    var s' := Next(s, a);
    LockStep(s, a);
    assert a.call in s.calls && Active(s.calls[a.call]) ==> s.lock == Some(a.call);
    forall d | d in s'.stored ensures Live(s'.fs.refresh, d, Newest(s', d)) {
      assert Live(s.fs.refresh, d, Newest(s, d));
      assert Newest(s', d) == Newest(s, d);
    }
  }

  /** Steps inside the app, the store untouched. */
  lemma GuardedAppStep(s: State, a: Action)
    requires Guarded(s) && Enabled(s, a) && InApp(a)
    ensures Guarded(Next(s, a))
  {
    LockStep(s, a);
    OthersStep(s, a);
    LiveStep(s, a);
  }

  lemma GuardedSend(s: State, c: CallId, r: RequestId, n: Hash)
    requires Guarded(s) && Sound(s) && Enabled(s, Send(c, r, n))
    ensures Guarded(Next(s, Send(c, r, n)))
  {
    var s' := Next(s, Send(c, r, n));
    assert s.lock == Some(c) && InFlight(s') == Some(r) && InFlight(s) == None;
    forall q | q in s'.handlers && q != r ensures HandlerForeign(s', s'.handlers[q]) {
      assert HandlerForeign(s, s.handlers[q]) && HandlerOk(s, s.handlers[q]);
      SendSpares(s, s', r, n, s.handlers[q]);
    }
    forall d | d in s'.stored ensures Live(s'.fs.refresh, d, Newest(s', d)) {
      assert Live(s.fs.refresh, d, Newest(s, d));
    }
  }

  /** The new request is going to make a token that no other request has. */
  lemma SendSpares(s: State, s': State, r: RequestId, n: Hash, h: Handler)
    requires HandlerForeign(s, h) && HandlerOk(s, h) && n !in s.mentioned
    requires s'.fs == s.fs && s'.stored == s.stored
    requires InFlight(s') == Some(r) && r in s'.handlers && s'.handlers[r].Received? && s'.handlers[r].next == n
    ensures HandlerForeign(s', h)
  {
    match h
    case Received(y, _) => ForeignStays(s, s', y);
    case Failed(y) => ForeignStays(s, s', y);
    case _ =>
  }

  lemma GuardedOtherRequest(s: State, r: RequestId, h: Hash, n: Hash)
    requires Guarded(s) && Enabled(s, OtherRequest(r, h, n)) && Foreign(s, h)
    ensures Guarded(Next(s, OtherRequest(r, h, n)))
  {
    var s' := Next(s, OtherRequest(r, h, n));
    assert InFlight(s) != Some(r);
    forall x | Foreign(s, x) ensures Foreign(s', x) {
    }
    forall q | q in s'.handlers && InFlight(s') != Some(q) ensures HandlerForeign(s', s'.handlers[q]) {
      if q != r { assert HandlerForeign(s, s.handlers[q]); }
    }
    forall d | d in s'.stored ensures Live(s'.fs.refresh, d, Newest(s', d)) {
      assert Live(s.fs.refresh, d, Newest(s, d));
    }
  }

  /** Steps that leave every token of the app's devices alone. */
  lemma GuardedElsewhere(s: State, s': State)
    requires Guarded(s)
    requires s'.stored == s.stored && s'.lock == s.lock && s'.calls == s.calls
    requires s.handlers.Keys == s'.handlers.Keys
    requires forall r | r in s.handlers && InFlight(s) == Some(r) :: s'.handlers[r] == s.handlers[r]
    requires forall r | r in s.handlers && InFlight(s) != Some(r) ::
      s'.handlers[r] == s.handlers[r] || HandlerForeign(s, s'.handlers[r])
    requires Grows(s.fs.refresh, s'.fs.refresh)
    requires forall i | 0 <= i < |s'.fs.refresh| && s'.fs.refresh[i].deviceId in s.stored ::
      i < |s.fs.refresh| && s'.fs.refresh[i] == s.fs.refresh[i]
    ensures Guarded(s')
  {
    forall x | Foreign(s, x) ensures Foreign(s', x) {
    }
    forall q | q in s'.handlers && InFlight(s') != Some(q) ensures HandlerForeign(s', s'.handlers[q]) {
      assert HandlerForeign(s, s.handlers[q]);
    }
    forall d | d in s'.stored ensures Live(s'.fs.refresh, d, Newest(s', d)) {
      var rs, rs' := s.fs.refresh, s'.fs.refresh;
      assert Live(rs, d, Newest(s, d));
      var i :| 0 <= i < |rs| && rs[i].deviceId == d && rs[i].hash == Newest(s, d) && !rs[i].used && !rs[i].revoked;
      assert rs'[i].deviceId in s.stored;
    }
  }

  /** Somebody else's request moves on. */
  lemma GuardedMove(s: State, s': State, r: RequestId, h: Handler)
    requires Guarded(s) && r in s.handlers && InFlight(s) != Some(r) && HandlerForeign(s, h)
    requires s'.stored == s.stored && s'.lock == s.lock && s'.calls == s.calls && s'.handlers == s.handlers[r := h]
    requires Grows(s.fs.refresh, s'.fs.refresh)
    requires forall i | 0 <= i < |s'.fs.refresh| && s'.fs.refresh[i].deviceId in s.stored ::
      i < |s.fs.refresh| && s'.fs.refresh[i] == s.fs.refresh[i]
    ensures Guarded(s')
  {
    GuardedElsewhere(s, s');
  }

  lemma RotateSpares(fs: FileState, h: Hash, n: Hash, e: Time, now: Time, mine: set<DeviceId>)
    requires var i := Find(fs.refresh, h); i < |fs.refresh| ==> fs.refresh[i].deviceId !in mine
    ensures var rs, rs' := fs.refresh, Rotate(fs, h, n, e, now).0.refresh;
      Grows(rs, rs') && forall k | 0 <= k < |rs'| && rs'[k].deviceId in mine :: k < |rs| && rs'[k] == rs[k]
  {
  }

  lemma GuardedForeignRotate(s: State, r: RequestId, e: Time, now: Time)
    requires Guarded(s) && Enabled(s, RotateStep(r, e, now)) && InFlight(s) != Some(r)
    ensures Guarded(Next(s, RotateStep(r, e, now)))
  {
    var Received(h, n) := s.handlers[r];
    assert HandlerForeign(s, s.handlers[r]);
    RotateSpares(s.fs, h, n, e, now, s.stored.Keys);
    var s' := Next(s, RotateStep(r, e, now));
    GuardedMove(s, s', r, s'.handlers[r]);
  }

  lemma GuardedLookup(s: State, r: RequestId)
    requires Guarded(s) && Enabled(s, LookupStep(r))
    ensures Guarded(Next(s, LookupStep(r)))
  {
    assert InFlight(s) != Some(r);
    assert HandlerForeign(s, s.handlers[r]);
    var s' := Next(s, LookupStep(r));
    GuardedMove(s, s', r, s'.handlers[r]);
  }

  lemma GuardedRevoke(s: State, r: RequestId)
    requires Guarded(s) && Enabled(s, RevokeStep(r))
    ensures Guarded(Next(s, RevokeStep(r)))
  {
    assert InFlight(s) != Some(r);
    assert HandlerForeign(s, s.handlers[r]);
    StepGrows(s, RevokeStep(r));
    var s' := Next(s, RevokeStep(r));
    GuardedMove(s, s', r, s'.handlers[r]);
  }

  /** Other clients' devices come and go. */
  lemma GuardedOthers(s: State, a: Action)
    requires Guarded(s) && Consistent(s) && Enabled(s, a) && Assumed(s, a) && StoredKnown(s)
    requires a.StartEnrol? || a.FinishEnrol? || a.RevokeRequest?
    ensures Guarded(Next(s, a))
  {
    StepGrows(s, a);
    if a.FinishEnrol? {
      assert !KnownDevice(s.fs.refresh, a.device);
    }
    GuardedElsewhere(s, Next(s, a));
  }

  ghost predicate StoredKnown(s: State) { forall d | d in s.stored :: KnownDevice(s.fs.refresh, d) }

  lemma GuardedStoredKnown(s: State)
    requires Guarded(s)
    ensures StoredKnown(s)
  {
    forall d | d in s.stored ensures KnownDevice(s.fs.refresh, d) {
      assert Live(s.fs.refresh, d, Newest(s, d));
    }
  }

  lemma GuardedEnrol(s: State, a: Action)
    requires Guarded(s) && Consistent(s) && StoredKnown(s) && a.AppEnrols? && Enabled(s, a)
    ensures Guarded(Next(s, a))
  {
    GuardedEnrolled(s, Next(s, a), RefreshRecord(a.hash, a.device, a.expiresAt, false, false));
  }

  lemma GuardedEnrolled(s: State, s': State, x: RefreshRecord)
    requires Guarded(s) && Sound(s) && StoredKnown(s) && !KnownDevice(s.fs.refresh, x.deviceId) && !x.used && !x.revoked
    requires x.hash !in s.mentioned && s'.fs.refresh == s.fs.refresh + [x]
    requires s'.stored == s.stored[x.deviceId := x.hash]
    requires s'.handlers == s.handlers && s'.calls == s.calls && s'.lock == s.lock
    ensures Guarded(s')
  {
    var rs, rs' := s.fs.refresh, s'.fs.refresh;
    assert x.deviceId !in s.stored;
    assert forall k | 0 <= k < |rs| :: rs[k].deviceId != x.deviceId;
    forall q | q in s'.handlers && InFlight(s') != Some(q) ensures HandlerForeign(s', s'.handlers[q]) {
      EnrolSpares(s, s', x, s.handlers[q]);
    }
    forall d | d in s'.stored ensures Live(rs', d, Newest(s', d)) {
      if d == x.deviceId {
        assert rs'[|rs|] == x;
      } else {
        assert Live(rs, d, Newest(s, d));
        LiveStays(rs, rs', d, Newest(s, d));
      }
    }
  }

  /** A new device of the app's is none that a handler deals with already. */
  lemma EnrolSpares(s: State, s': State, x: RefreshRecord, h: Handler)
    requires HandlerForeign(s, h) && HandlerOk(s, h) && !KnownDevice(s.fs.refresh, x.deviceId)
    requires x.hash !in s.mentioned && s'.fs.refresh == s.fs.refresh + [x]
    requires s'.stored == s.stored[x.deviceId := x.hash]
    requires s'.handlers == s.handlers && s'.calls == s.calls && s'.lock == s.lock
    ensures HandlerForeign(s', h)
  {
    assert forall k | 0 <= k < |s.fs.refresh| :: s.fs.refresh[k].deviceId != x.deviceId;
    match h
    case Received(y, _) => ForeignStays(s, s', y);
    case Failed(y) => ForeignStays(s, s', y);
    case _ =>
  }

  /** A live token is the one record with its hash, and rotating it succeeds. */
  lemma LiveRotates(s: State, d: DeviceId, h: Hash, n: Hash, e: Time, now: Time)
    requires Refinable(s.fs.refresh) && Live(s.fs.refresh, d, h)
    requires forall i | 0 <= i < |s.fs.refresh| && s.fs.refresh[i].deviceId == d && s.fs.refresh[i].hash == h ::
      now <= s.fs.refresh[i].expiresAt
    ensures var i := Find(s.fs.refresh, h);
      i < |s.fs.refresh| && s.fs.refresh[i].deviceId == d && Usable(s.fs.refresh[i], now)
      && Rotate(s.fs, h, n, e, now).1 == Some(d)
  {
    var rs := s.fs.refresh;
    var m :| Refines(rs, m);
    var i :| 0 <= i < |rs| && rs[i].deviceId == d && rs[i].hash == h && !rs[i].used && !rs[i].revoked;
    assert Find(rs, h) == i;
  }

  /** The rotation the app asked for. */
  lemma GuardedOwnRotate(s: State, r: RequestId, e: Time, now: Time)
    requires Guarded(s) && Refinable(s.fs.refresh)
    requires Enabled(s, RotateStep(r, e, now)) && Assumed(s, RotateStep(r, e, now))
    requires InFlight(s) == Some(r)
    ensures Guarded(Next(s, RotateStep(r, e, now)))
    ensures Next(s, RotateStep(r, e, now)).handlers[r].Granted?
  {
    var h := s.handlers[r].hash;
    var d := s.calls[s.lock.value].server;
    assert d in s.stored && Newest(s, d) == h;
    LiveRotates(s, d, h, s.handlers[r].next, e, now);
    GuardedRotated(s, Next(s, RotateStep(r, e, now)), r, Find(s.fs.refresh, h), e);
  }

  lemma GuardedRotated(s: State, s': State, r: RequestId, i: nat, e: Time)
    requires Guarded(s) && InFlight(s) == Some(r) && r in s.handlers && s.handlers[r].Received?
    requires i < |s.fs.refresh| && s.fs.refresh[i].deviceId == s.calls[s.lock.value].server
    requires var rs, n := s.fs.refresh, s.handlers[r].next;
      && s'.fs.refresh == rs[i := rs[i].(used := true)] + [RefreshRecord(n, rs[i].deviceId, e, false, false)]
      && s'.handlers == s.handlers[r := Granted(n)]
    requires s'.stored == s.stored && s'.calls == s.calls && s'.lock == s.lock
    ensures Guarded(s')
  {
    var rs, rs', n := s.fs.refresh, s'.fs.refresh, s.handlers[r].next;
    var d := rs[i].deviceId;
    assert Upcoming(s, n);
    forall q | q in s'.handlers && InFlight(s') != Some(q) ensures HandlerForeign(s', s'.handlers[q]) {
      assert HandlerForeign(s, s.handlers[q]);
      match s.handlers[q]
      case Received(y, _) => ForeignStays(s, s', y);
      case Failed(y) => ForeignStays(s, s', y);
      case _ =>
    }
    forall x | x in s'.stored ensures Live(rs', x, Newest(s', x)) {
      if x == d {
        assert rs'[|rs|].hash == n && Newest(s', x) == n;
      } else {
        assert Live(rs, x, Newest(s, x));
        LiveStays(rs, rs', x, Newest(s, x));
      }
    }
  }

  lemma GuardedStep(s: State, a: Action)
    requires Guarded(s) && Consistent(s) && Enabled(s, a) && Assumed(s, a)
    ensures Guarded(Next(s, a))
  {
    GuardedStoredKnown(s);
    match a
    case AppEnrols(_, _, _, _, _) => GuardedEnrol(s, a);
    case Send(c, r, n) => GuardedSend(s, c, r, n);
    case RotateStep(r, e, now) =>
      if InFlight(s) == Some(r) { GuardedOwnRotate(s, r, e, now); } else { GuardedForeignRotate(s, r, e, now); }
    case LookupStep(r) => GuardedLookup(s, r);
    case RevokeStep(r) => GuardedRevoke(s, r);
    case OtherRequest(r, h, n) => GuardedOtherRequest(s, r, h, n);
    case StartEnrol(_, _, _) => GuardedOthers(s, a);
    case FinishEnrol(_, _, _, _) => GuardedOthers(s, a);
    case RevokeRequest(_) => GuardedOthers(s, a);
    case Enter(_, _) => GuardedAppStep(s, a);
    case Acquire(_) => GuardedAppStep(s, a);
    case GiveUp(_) => GuardedAppStep(s, a);
    case Hear(_) => GuardedAppStep(s, a);
    case Save(_) => GuardedAppStep(s, a);
    case Leave(_) => GuardedAppStep(s, a);
  }

  ghost predicate IsCalmRun(ss: seq<State>, acts: seq<Action>) {
    IsRun(ss, acts) && forall k | 0 <= k < |acts| :: Assumed(ss[k], acts[k])
  }

  lemma {:induction false} RunGuarded(ss: seq<State>, acts: seq<Action>, k: nat)
    requires IsCalmRun(ss, acts) && k < |ss|
    ensures Guarded(ss[k])
  {
    if k == 0 {
    } else {
      var j := k - 1;
      RunGuarded(ss, acts, j);
      RunConsistent(ss, acts, j);
      RunStep(ss, acts, j);
      GuardedStep(ss[j], acts[j]);
    }
  }

  /** However its calls interleave with each other, with the agent and with other clients, the
      app has at most one refresh in flight; the token waiting to be rotated is its device's only
      unspent one; no refresh of its own is ever refused; and no device of the app is ever
      revoked or about to be. */
  lemma AppNeverTriggersReuse(ss: seq<State>, acts: seq<Action>, k: nat)
    requires IsCalmRun(ss, acts) && k < |ss|
    ensures var s := ss[k];
      && (forall c, c' | c in s.calls && c' in s.calls && s.calls[c].Sent? && s.calls[c'].Sent? :: c == c')
      && (forall c | c in s.calls && s.calls[c].Sent? ::
            var Sent(d, t, r) := s.calls[c];
            && r in s.handlers && (s.handlers[r].Received? || s.handlers[r].Granted?)
            && (s.handlers[r].Received? ==> s.handlers[r].hash == t && OnlyUnspent(s.fs.refresh, d, t)))
      && (forall d | d in s.stored ::
            && OnlyUnspent(s.fs.refresh, d, Newest(s, d)) && !Revoked(s.fs.refresh, d)
            && forall r | r in s.handlers :: s.handlers[r] != Found(d))
  {
    var s := ss[k];
    RunGuarded(ss, acts, k);
    RunConsistent(ss, acts, k);
    forall d | d in s.stored ensures OnlyUnspent(s.fs.refresh, d, Newest(s, d)) && !Revoked(s.fs.refresh, d) {
      LiveIsOnly(s.fs.refresh, d, Newest(s, d));
    }
    forall r | r in s.handlers ensures s.handlers[r].Found? ==> s.handlers[r].device !in s.stored {
      if InFlight(s) != Some(r) { assert HandlerForeign(s, s.handlers[r]); }
    }
  }

  /** `h` is an unspent token of `d`, and `d` has no other. */
  ghost predicate OnlyUnspent(rs: seq<RefreshRecord>, d: DeviceId, h: Hash) {
    Live(rs, d, h) && forall i | 0 <= i < |rs| && rs[i].deviceId == d && !rs[i].used :: rs[i].hash == h
  }

  lemma LiveIsOnly(rs: seq<RefreshRecord>, d: DeviceId, h: Hash)
    requires Refinable(rs) && Live(rs, d, h)
    ensures OnlyUnspent(rs, d, h) && !Revoked(rs, d)
  {
    var m :| Refines(rs, m);
    var w :| 0 <= w < |rs| && rs[w].deviceId == d && rs[w].hash == h && !rs[w].used && !rs[w].revoked;
    forall i | 0 <= i < |rs| && rs[i].deviceId == d && !rs[i].used ensures rs[i].hash == h {
      OneLiveToken(rs, m, w, i);
    }
  }

  // ----- Why both the lock and the answers are needed -----

  /** The state a list of actions leads to, if all of them can be taken. */
  function Play(s: State, acts: seq<Action>): Option<State>
    decreases |acts|
  {
    if acts == [] then Some(s)
    else if Enabled(s, acts[0]) then Play(Next(s, acts[0]), acts[1..])
    else None
  }

  predicate IsReceived(s: State, q: RequestId) { q in s.handlers && s.handlers[q].Received? }

  /** The whole of `handleRefresh` on a request, with nothing in between. */
  function Handle(s: State, q: RequestId, e: Time, now: Time): (s': State)
    requires IsReceived(s, q)
    ensures forall x | x != q && x in s.handlers :: x in s'.handlers && s'.handlers[x] == s.handlers[x]
  {
    var s1 := Next(s, RotateStep(q, e, now));
    if s1.handlers[q].Granted? then s1
    else
      var s2 := Next(s1, LookupStep(q));
      if s2.handlers[q].Found? then Next(s2, RevokeStep(q)) else s2
  }

  lemma RefusedRevokes(s: State, q: RequestId, e: Time, now: Time)
    requires IsReceived(s, q)
    requires var i := Find(s.fs.refresh, s.handlers[q].hash);
      i < |s.fs.refresh| && !Usable(s.fs.refresh[i], now)
    ensures var i := Find(s.fs.refresh, s.handlers[q].hash);
      Revoked(Handle(s, q, e, now).fs.refresh, s.fs.refresh[i].deviceId)
  {
    var rs, h := s.fs.refresh, s.handlers[q].hash;
    var i := Find(rs, h);
    var s1 := Next(s, RotateStep(q, e, now));
    assert s1.fs == s.fs && s1.handlers[q] == Failed(h);
    var s2 := Next(s1, LookupStep(q));
    assert s2.fs == s.fs && s2.handlers[q] == Found(rs[i].deviceId);
    assert KnownDevice(rs, rs[i].deviceId);
    KillRevokes(rs, rs[i].deviceId);
  }

  predicate InDate(rs: seq<RefreshRecord>, d: DeviceId, h: Hash, now: Time) {
    forall i | 0 <= i < |rs| && rs[i].deviceId == d && rs[i].hash == h :: now <= rs[i].expiresAt
  }

  /** `rs'` is `rs` with record `i` spent and a successor of it appended. */
  ghost predicate Succeeded(rs: seq<RefreshRecord>, i: nat, n: Hash, e: Time, rs': seq<RefreshRecord>) {
    i < |rs| && rs' == rs[i := rs[i].(used := true)] + [RefreshRecord(n, rs[i].deviceId, e, false, false)]
  }

  lemma HandleGranted(s: State, q: RequestId, e: Time, now: Time)
    requires IsReceived(s, q)
    requires var i := Find(s.fs.refresh, s.handlers[q].hash); i < |s.fs.refresh| && Usable(s.fs.refresh[i], now)
    ensures Handle(s, q, e, now).fs == Rotate(s.fs, s.handlers[q].hash, s.handlers[q].next, e, now).0
  {
    assert Next(s, RotateStep(q, e, now)).handlers[q].Granted?;
  }

  /** A request with a live token is granted. */
  lemma LiveIsHandled(s: State, q: RequestId, d: DeviceId, e: Time, now: Time)
    requires Refinable(s.fs.refresh) && IsReceived(s, q) && Live(s.fs.refresh, d, s.handlers[q].hash)
    requires InDate(s.fs.refresh, d, s.handlers[q].hash, now)
    ensures var rs, i := s.fs.refresh, Find(s.fs.refresh, s.handlers[q].hash);
      && i < |rs| && rs[i].deviceId == d && Usable(rs[i], now)
      && Succeeded(rs, i, s.handlers[q].next, e, Handle(s, q, e, now).fs.refresh)
      && Handle(s, q, e, now).fs == Rotate(s.fs, s.handlers[q].hash, s.handlers[q].next, e, now).0
  {
    LiveRotates(s, d, s.handlers[q].hash, s.handlers[q].next, e, now);
    HandleGranted(s, q, e, now);
  }

  lemma SucceededMeans(rs: seq<RefreshRecord>, i: nat, n: Hash, e: Time, rs': seq<RefreshRecord>)
    requires Succeeded(rs, i, n, e, rs') && i == Find(rs, rs[i].hash)
    ensures !Revoked(rs', rs[i].deviceId) && Find(rs', rs[i].hash) == i && rs'[i].used
    ensures rs'[i].deviceId == rs[i].deviceId
    ensures forall d, h | d != rs[i].deviceId && Live(rs, d, h) :: Live(rs', d, h)
  {
    assert rs'[|rs|].deviceId == rs[i].deviceId && !rs'[|rs|].revoked;
    assert forall k | 0 <= k < |rs| && k != i :: rs'[k] == rs[k];
    assert Grows(rs, rs');
    FindStays(rs, rs', rs[i].hash);
    forall d, h | d != rs[i].deviceId && Live(rs, d, h) ensures Live(rs', d, h) {
      LiveStays(rs, rs', d, h);
    }
  }

  /** `h` is a spent token of `d`. */
  ghost predicate IsSpent(rs: seq<RefreshRecord>, d: DeviceId, h: Hash) {
    exists i | 0 <= i < |rs| :: rs[i].deviceId == d && rs[i].hash == h && rs[i].used
  }

  /** A successor of the stored token has been granted to the app and is not saved yet. */
  predicate Pending(s: State, d: DeviceId) {
    s.lock.Some? && s.lock.value in s.calls &&
    match s.calls[s.lock.value]
    case Sent(x, _, r) => x == d && r in s.handlers && s.handlers[r].Granted?
    case Answered(x, _) => x == d
    case _ => false
  }

  ghost predicate PendingSpent(s: State) {
    forall d | d in s.stored && Pending(s, d) :: IsSpent(s.fs.refresh, d, s.stored[d])
  }

  lemma SpentStays(rs: seq<RefreshRecord>, rs': seq<RefreshRecord>, d: DeviceId, h: Hash)
    requires Grows(rs, rs') && IsSpent(rs, d, h)
    ensures IsSpent(rs', d, h)
  {
    var i :| 0 <= i < |rs| && rs[i].deviceId == d && rs[i].hash == h && rs[i].used;
    assert rs'[i].deviceId == d && rs'[i].hash == h && rs'[i].used;
  }

  /** Only the rotation the app asked for makes a successor pending. */
  lemma PendingBefore(s: State, a: Action, d: DeviceId)
    requires LockOk(s) && FlightOk(s) && StoredKnown(s) && Enabled(s, a) && Pending(Next(s, a), d)
    requires d in Next(s, a).stored && !(a.RotateStep? && InFlight(s) == Some(a.request))
    ensures d in s.stored && Pending(s, d) && Next(s, a).stored[d] == s.stored[d]
  {
    if InApp(a) { LockStep(s, a); }
  }

  lemma PendingRotated(s: State, r: RequestId, e: Time, now: Time)
    requires Guarded(s) && Refinable(s.fs.refresh) && Enabled(s, RotateStep(r, e, now))
    requires Assumed(s, RotateStep(r, e, now)) && InFlight(s) == Some(r)
    ensures PendingSpent(Next(s, RotateStep(r, e, now)))
  {
    var s' := Next(s, RotateStep(r, e, now));
    var Received(h, n) := s.handlers[r];
    var d := s.calls[s.lock.value].server;
    assert d in s.stored && Newest(s, d) == h == s.stored[d];
    LiveRotates(s, d, h, n, e, now);
    var i := Find(s.fs.refresh, h);
    assert s'.fs.refresh[i].deviceId == d && s'.fs.refresh[i].hash == h && s'.fs.refresh[i].used;
    assert IsSpent(s'.fs.refresh, d, h);
  }

  lemma PendingStep(s: State, a: Action)
    requires Guarded(s) && Consistent(s) && Enabled(s, a) && Assumed(s, a) && PendingSpent(s)
    ensures PendingSpent(Next(s, a))
  {
    if a.RotateStep? && InFlight(s) == Some(a.request) {
      PendingRotated(s, a.request, a.expiresAt, a.now);
    } else {
      GuardedStoredKnown(s);
      StepGrows(s, a);
      var s' := Next(s, a);
      forall d | d in s'.stored && Pending(s', d) ensures IsSpent(s'.fs.refresh, d, s'.stored[d]) {
        PendingBefore(s, a, d);
        SpentStays(s.fs.refresh, s'.fs.refresh, d, s.stored[d]);
      }
    }
  }

  lemma {:induction false} RunPending(ss: seq<State>, acts: seq<Action>, k: nat)
    requires IsCalmRun(ss, acts) && k < |ss|
    ensures PendingSpent(ss[k])
  {
    if k == 0 {
    } else {
      var j := k - 1;
      RunPending(ss, acts, j);
      RunGuarded(ss, acts, j);
      RunConsistent(ss, acts, j);
      RunStep(ss, acts, j);
      PendingStep(ss[j], acts[j]);
    }
  }

  lemma SpentIsFound(rs: seq<RefreshRecord>, d: DeviceId, h: Hash)
    requires Refinable(rs) && IsSpent(rs, d, h)
    ensures var i := Find(rs, h); i < |rs| && rs[i].used && rs[i].deviceId == d
  {
    var m :| Refines(rs, m);
    var i :| 0 <= i < |rs| && rs[i].deviceId == d && rs[i].hash == h && rs[i].used;
    assert Find(rs, h) == i;
  }

  /** What a call of `_refreshAccessToken` leaves behind when the answer to it never arrives: the
      lock is free again and the old token still stored. */
  function AnswerLost(s: State, c: CallId): State { s.(lock := None, calls := s.calls[c := Returned]) }

  /** The next call for the same server, up to its request. */
  lemma AskedAgain(s: State, c: CallId, d: DeviceId, q: RequestId, n: Hash)
    requires s.lock == None && c !in s.calls && q !in s.handlers && n !in s.mentioned && d in s.stored
    ensures var s' := Play(s, [Enter(c, d), Acquire(c), Send(c, q, n)]);
      && s'.Some? && s'.value.fs == s.fs && s'.value.handlers == s.handlers[q := Received(s.stored[d], n)]
  {
    var s1 := Next(s, Enter(c, d));
    var s2 := Next(s1, Acquire(c));
    var s3 := Next(s2, Send(c, q, n));
    var x, y, z := [Enter(c, d), Acquire(c), Send(c, q, n)], [Acquire(c), Send(c, q, n)], [Send(c, q, n)];
    assert x[1..] == y && y[1..] == z && z[1..] == [];
    assert Play(s3, []) == Some(s3);
    assert Play(s2, z) == Some(s3);
    assert Play(s1, y) == Some(s3);
  }

  /** What losing an answer does, in any calm run and at any moment while a request of the app is
      out: the app's next refresh revokes its own device exactly if the lost request has been
      granted already, and otherwise the lost request revokes it as soon as it is handled. */
  lemma WithoutTheAnswer(ss: seq<State>, acts: seq<Action>, k: nat, c: CallId,
                         c': CallId, q: RequestId, n: Hash, e: Time, now: Time)
    requires IsCalmRun(ss, acts) && k < |ss| && c in ss[k].calls && ss[k].calls[c].Sent?
    requires c' !in ss[k].calls && q !in ss[k].handlers && n !in ss[k].mentioned
    requires InDate(ss[k].fs.refresh, ss[k].calls[c].server, ss[k].calls[c].token, now)
    ensures var Sent(d, t, r) := ss[k].calls[c];
      var asked := Play(AnswerLost(ss[k], c), [Enter(c', d), Acquire(c'), Send(c', q, n)]);
      && r in ss[k].handlers && asked.Some? && IsReceived(asked.value, q) && asked.value.handlers[q].hash == t
      && var after := Handle(asked.value, q, e, now);
         && (Revoked(after.fs.refresh, d) <==> ss[k].handlers[r].Granted?)
         && (!ss[k].handlers[r].Granted? ==>
               IsReceived(after, r) && Revoked(Handle(after, r, e, now).fs.refresh, d))
  {
    var s := ss[k];
    var Sent(d, t, r) := s.calls[c];
    RunGuarded(ss, acts, k);
    RunConsistent(ss, acts, k);
    RunPending(ss, acts, k);
    assert Active(s.calls[c]) && s.lock == Some(c);
    AskedAgain(AnswerLost(s, c), c', d, q, n);
    var asked := Play(AnswerLost(s, c), [Enter(c', d), Acquire(c'), Send(c', q, n)]).value;
    if s.handlers[r].Granted? {
      assert Pending(s, d);
      SpentIsFound(s.fs.refresh, d, t);
      RefusedRevokes(asked, q, e, now);
    } else {
      assert Newest(s, d) == t;
      LiveIsHandled(asked, q, d, e, now);
      SucceededMeans(s.fs.refresh, Find(s.fs.refresh, t), n, e, Handle(asked, q, e, now).fs.refresh);
      RefusedRevokes(Handle(asked, q, e, now), r, e, now);
    }
  }

  /** A waiting call that goes ahead as if there were no lock. */
  function Barge(s: State, c: CallId): State
    requires c in s.calls && s.calls[c].Waiting?
  {
    s.(calls := s.calls[c := Holding(s.calls[c].server)])
  }

  lemma BothAsked(s: State, c: CallId, c': CallId, r: RequestId, q: RequestId, n: Hash, n': Hash)
    requires c != c' && c in s.calls && c' in s.calls && s.calls[c].Holding? && s.calls[c'].Holding?
    requires s.calls[c].server in s.stored && s.calls[c'].server in s.stored
    requires r != q && r !in s.handlers && q !in s.handlers
    requires n != n' && n !in s.mentioned && n' !in s.mentioned
    ensures var s' := Play(s, [Send(c, r, n), Send(c', q, n')]);
      && s'.Some? && s'.value.fs == s.fs
      && s'.value.handlers == s.handlers[r := Received(s.stored[s.calls[c].server], n)]
                                        [q := Received(s.stored[s.calls[c'].server], n')]
  {
    var a, b := Send(c, r, n), Send(c', q, n');
    var s1 := Next(s, a);
    var s2 := Next(s1, b);
    assert [a, b][1..] == [b] && [b][1..] == [];
    assert Play(s2, []) == Some(s2);
    assert Play(s1, [b]) == Some(s2);
  }

  /** What the lock is for: if a waiting call went ahead of it in any calm run, both would be
      granted when they are for different servers, and the device revoked when for the same. */
  lemma WithoutTheLock(ss: seq<State>, acts: seq<Action>, k: nat, c: CallId, c': CallId,
                       r: RequestId, q: RequestId, n: Hash, n': Hash, e: Time, now: Time)
    requires IsCalmRun(ss, acts) && k < |ss|
    requires c in ss[k].calls && ss[k].calls[c].Holding? && ss[k].calls[c].server in ss[k].stored
    requires c' in ss[k].calls && ss[k].calls[c'].Waiting? && ss[k].calls[c'].server in ss[k].stored
    requires r != q && r !in ss[k].handlers && q !in ss[k].handlers
    requires n != n' && n !in ss[k].mentioned && n' !in ss[k].mentioned
    requires forall d | d in ss[k].stored :: InDate(ss[k].fs.refresh, d, ss[k].stored[d], now)
    ensures var d, d' := ss[k].calls[c].server, ss[k].calls[c'].server;
      var asked := Play(Barge(ss[k], c'), [Send(c, r, n), Send(c', q, n')]);
      && asked.Some? && IsReceived(asked.value, r)
      && var after := Handle(asked.value, r, e, now);
         && IsReceived(after, q)
         && var end := Handle(after, q, e, now);
            (Revoked(end.fs.refresh, d) <==> d == d') && (Revoked(end.fs.refresh, d') <==> d == d')
  {
    var s := ss[k];
    var d, d' := s.calls[c].server, s.calls[c'].server;
    RunGuarded(ss, acts, k);
    RunConsistent(ss, acts, k);
    assert s.lock == Some(c);
    BothAsked(Barge(s, c'), c, c', r, q, n, n');
    var asked := Play(Barge(s, c'), [Send(c, r, n), Send(c', q, n')]).value;
    assert Live(s.fs.refresh, d, Newest(s, d)) && Live(s.fs.refresh, d', Newest(s, d'));
    assert Newest(s, d) == s.stored[d] && Newest(s, d') == s.stored[d'];
    UnknownIfUnmentioned(s, n);
    if d == d' {
      SameServer(s, asked, r, q, d, e, now);
    } else {
      DifferentServers(s, asked, r, q, d, d', e, now);
    }
  }

  lemma SameServer(s: State, asked: State, r: RequestId, q: RequestId, d: DeviceId, e: Time, now: Time)
    requires r != q && IsReceived(asked, r) && IsReceived(asked, q) && asked.fs == s.fs
    requires Refinable(s.fs.refresh) && asked.handlers[q].hash == asked.handlers[r].hash
    requires Live(s.fs.refresh, d, asked.handlers[r].hash) && InDate(s.fs.refresh, d, asked.handlers[r].hash, now)
    ensures Revoked(Handle(Handle(asked, r, e, now), q, e, now).fs.refresh, d)
  {
    var rs, h := s.fs.refresh, asked.handlers[r].hash;
    var after := Handle(asked, r, e, now);
    LiveIsHandled(asked, r, d, e, now);
    SucceededMeans(rs, Find(rs, h), asked.handlers[r].next, e, after.fs.refresh);
    RefusedRevokes(after, q, e, now);
  }

  lemma DifferentServers(s: State, asked: State, r: RequestId, q: RequestId,
                         d: DeviceId, d': DeviceId, e: Time, now: Time)
    requires d != d' && r != q && IsReceived(asked, r) && IsReceived(asked, q) && asked.fs == s.fs
    requires Refinable(s.fs.refresh) && !KnownHash(s.fs.refresh, asked.handlers[r].next)
    requires asked.handlers[r].next != asked.handlers[q].hash
    requires Live(s.fs.refresh, d, asked.handlers[r].hash) && InDate(s.fs.refresh, d, asked.handlers[r].hash, now)
    requires Live(s.fs.refresh, d', asked.handlers[q].hash) && InDate(s.fs.refresh, d', asked.handlers[q].hash, now)
    ensures var end := Handle(Handle(asked, r, e, now), q, e, now).fs.refresh;
      !Revoked(end, d) && !Revoked(end, d')
  {
    var Received(h, n) := asked.handlers[r];
    var Received(h', n') := asked.handlers[q];
    var rs, after := s.fs.refresh, Handle(asked, r, e, now);
    var rs' := after.fs.refresh;
    LiveIsHandled(asked, r, d, e, now);
    StillRefinable(s.fs, h, n, e, now);
    OtherUnaffected(rs, Find(rs, h), n, e, rs', d', h', now);
    LiveIsHandled(after, q, d', e, now);
    var end := Handle(after, q, e, now).fs.refresh;
    SucceededMeans(rs', Find(rs', h'), n', e, end);
    assert rs'[|rs|].deviceId == d && rs'[|rs|].hash == n && !rs'[|rs|].revoked && !rs'[|rs|].used;
    assert Live(rs', d, n) && Live(end, d, n);
  }

  lemma StillRefinable(fs: FileState, h: Hash, n: Hash, e: Time, now: Time)
    requires Refinable(fs.refresh) && !KnownHash(fs.refresh, n)
    ensures Refinable(Rotate(fs, h, n, e, now).0.refresh)
  {
    RefreshOnly(fs, RotateToken(h, n, e, now));
  }

  lemma OtherUnaffected(rs: seq<RefreshRecord>, i: nat, n: Hash, e: Time, rs': seq<RefreshRecord>,
                        d: DeviceId, h: Hash, now: Time)
    requires Succeeded(rs, i, n, e, rs') && rs[i].deviceId != d && Live(rs, d, h) && InDate(rs, d, h, now)
    ensures Live(rs', d, h) && InDate(rs', d, h, now)
  {
    assert forall k | 0 <= k < |rs| && k != i :: rs'[k] == rs[k];
    LiveStays(rs, rs', d, h);
  }

  lemma RunExtends(ss: seq<State>, acts: seq<Action>, s: State, a: Action)
    requires IsCalmRun(ss, acts) && s == ss[|ss| - 1] && Enabled(s, a) && Assumed(s, a)
    ensures IsCalmRun(ss + [Next(s, a)], acts + [a])
  {
    var ss', acts' := ss + [Next(s, a)], acts + [a];
    forall k | 0 <= k < |acts'|
      ensures Enabled(ss'[k], acts'[k]) && ss'[k + 1] == Next(ss'[k], acts'[k]) && Assumed(ss'[k], acts'[k])
    {
      if k < |acts| {
        RunStep(ss, acts, k);
        assert ss'[k] == ss[k] && ss'[k + 1] == ss[k + 1] && acts'[k] == acts[k];
      }
    }
  }

  /** The state after the app's first enrolment. */
  lemma FirstServer() returns (ss: seq<State>, acts: seq<Action>, s: State)
    ensures IsCalmRun(ss, acts) && |ss| > 0 && s == ss[|ss| - 1]
    ensures s.calls == map[] && s.lock == None && s.handlers == map[]
    ensures s.stored == map["d" := "a"] && s.mentioned == {"a"}
    ensures s.fs.refresh == [RefreshRecord("a", "d", 0, false, false)]
  {
    var a := AppEnrols("d", "", "a", 0, 0);
    s := Next(INITIAL, a);
    RunExtends([INITIAL], [], INITIAL, a);
    ss, acts := [INITIAL] + [s], [] + [a];
  }

  /** A calm run in which one call holds the lock and another one waits for the same server. */
  lemma LockIsContended() returns (ss: seq<State>, acts: seq<Action>)
    ensures IsCalmRun(ss, acts) && |ss| > 0
    ensures var s := ss[|ss| - 1];
      && s.calls == map[0 := Holding("d"), 1 := Waiting("d")] && s.lock == Some(0) && s.handlers == map[]
      && s.stored == map["d" := "a"] && s.mentioned == {"a"}
      && s.fs.refresh == [RefreshRecord("a", "d", 0, false, false)]
  {
    var s;
    ss, acts, s := FirstServer();
    RunExtends(ss, acts, s, Enter(0, "d"));
    ss, acts, s := ss + [Next(s, Enter(0, "d"))], acts + [Enter(0, "d")], Next(s, Enter(0, "d"));
    RunExtends(ss, acts, s, Enter(1, "d"));
    ss, acts, s := ss + [Next(s, Enter(1, "d"))], acts + [Enter(1, "d")], Next(s, Enter(1, "d"));
    RunExtends(ss, acts, s, Acquire(0));
    ss, acts, s := ss + [Next(s, Acquire(0))], acts + [Acquire(0)], Next(s, Acquire(0));
  }

  /** A calm run in which the app's request has been granted and the answer is still on its way. */
  lemma AnswerIsOnItsWay() returns (ss: seq<State>, acts: seq<Action>)
    ensures IsCalmRun(ss, acts) && |ss| > 0
    ensures var s := ss[|ss| - 1];
      0 in s.calls && s.calls[0] == Sent("d", "a", 0) && 0 in s.handlers && s.handlers[0] == Granted("b")
  {
    ss, acts := LockIsContended();
    var s := ss[|ss| - 1];
    var a, b := Send(0, 0, "b"), RotateStep(0, 0, 0);
    RunExtends(ss, acts, s, a);
    ss, acts, s := ss + [Next(s, a)], acts + [a], Next(s, a);
    assert s.fs.refresh[0].hash == "a" && Find(s.fs.refresh, "a") == 0;
    RunExtends(ss, acts, s, b);
    ss, acts := ss + [Next(s, b)], acts + [b];
  }

  // ----- Nobody waits for ever -----

  /** A held lock belongs to the one call that is between taking it and returning. */
  lemma LockKept(s: State, a: Action)
    requires LockOk(s) && Enabled(s, a)
    ensures LockOk(Next(s, a))
  {
    if InApp(a) || a.Send? {
      assert a.call in s.calls && Active(s.calls[a.call]) ==> s.lock == Some(a.call);
    }
  }

  /** The request a call waits for is one the agent has received. */
  ghost predicate SentReceived(s: State) {
    forall c | c in s.calls && s.calls[c].Sent? :: s.calls[c].request in s.handlers
  }

  lemma SentKept(s: State, a: Action)
    requires SentReceived(s) && Enabled(s, a)
    ensures SentReceived(Next(s, a))
  {
  }

  /** In every run, also when refreshes are refused and devices revoked: exactly the active call
      holds the lock, so a call that has returned does not, and whenever no call is active every
      waiting call can go on. */
  lemma {:induction false} RunLockOk(ss: seq<State>, acts: seq<Action>, k: nat)
    requires IsRun(ss, acts) && k < |ss|
    ensures LockOk(ss[k]) && SentReceived(ss[k])
    ensures (forall c | c in ss[k].calls :: !Active(ss[k].calls[c])) ==>
      forall c | c in ss[k].calls && ss[k].calls[c].Waiting? :: Enabled(ss[k], Acquire(c))
  {
    if k == 0 {
    } else {
      var j := k - 1;
      RunLockOk(ss, acts, j);
      RunStep(ss, acts, j);
      LockKept(ss[j], acts[j]);
      SentKept(ss[j], acts[j]);
    }
  }

  /** How many steps the holder of the lock and its request can take at most. */
  function StepsLeft(s: State): nat {
    if s.lock.None? || s.lock.value !in s.calls then 0
    else
      match s.calls[s.lock.value]
      case Holding(_) => 1
      case Sent(_, _, r) =>
        if r !in s.handlers then 0
        else
          (match s.handlers[r]
           case Received(_, _) => 6
           case Failed(_) => 5
           case Found(_) => 4
           case Granted(_) => 3
           case Refused => 1)
      case Answered(_, _) => 2
      case Saved(_) => 1
      case _ => 0
  }

  /** The next such step; it involves nobody but the holder. */
  lemma HolderGoesOn(s: State) returns (a: Action)
    requires LockOk(s) && SentReceived(s) && s.lock.Some?
    ensures Enabled(s, a) && StepsLeft(Next(s, a)) < StepsLeft(s)
    ensures forall c | c in s.calls && c != s.lock.value :: c in Next(s, a).calls && Next(s, a).calls[c] == s.calls[c]
  {
    var c := s.lock.value;
    assert Active(s.calls[c]);
    match s.calls[c]
    case Holding(_) => a := GiveUp(c);
    case Answered(_, _) => a := Save(c);
    case Saved(_) => a := Leave(c);
    case Sent(_, _, r) =>
      match s.handlers[r]
      case Received(_, _) => a := RotateStep(r, 0, 0);
      case Failed(_) => a := LookupStep(r);
      case Found(_) => a := RevokeStep(r);
      case _ => a := Hear(c);
  }

  /** However its refresh ends, the holder of the lock
      and the agent can go on, by themselves and in at most six steps, until the lock is free. */
  lemma {:induction false} LockComesFree(s: State) returns (acts: seq<Action>)
    requires LockOk(s) && SentReceived(s)
    ensures |acts| <= StepsLeft(s) <= 6
    ensures var s' := Play(s, acts); s'.Some? && s'.value.lock == None
    ensures forall c | c in s.calls && s.calls[c].Waiting? :: Enabled(Play(s, acts).value, Acquire(c))
    decreases StepsLeft(s)
  {
    if s.lock == None {
      acts := [];
    } else {
      var a := HolderGoesOn(s);
      LockKept(s, a);
      SentKept(s, a);
      assert forall c | c in s.calls && s.calls[c].Waiting? :: c != s.lock.value;
      var more := LockComesFree(Next(s, a));
      acts := [a] + more;
      assert acts[1..] == more;
    }
  }

  /** In every run a call that waits can get the lock: at most six steps of others are needed. */
  lemma NobodyWaitsForEver(ss: seq<State>, acts: seq<Action>, k: nat, c: CallId) returns (more: seq<Action>)
    requires IsRun(ss, acts) && k < |ss| && c in ss[k].calls && ss[k].calls[c].Waiting?
    ensures |more| <= 6 && Play(ss[k], more).Some? && Enabled(Play(ss[k], more).value, Acquire(c))
  {
    RunLockOk(ss, acts, k);
    more := LockComesFree(ss[k]);
  }

  // ----- Revoking on request -----

  /** After a device is revoked on request, and after everything is, nothing of it is good. */
  lemma RequestRevokes(s: State, d: DeviceId)
    requires KnownDevice(s.fs.refresh, d)
    ensures Revoked(Next(s, RevokeRequest(d)).fs.refresh, d)
    ensures Revoked(Next(s, RevokeAllRequest).fs.refresh, d)
  {
    KillRevokes(s.fs.refresh, d);
    var rs := s.fs.refresh;
    var w := WitnessOf(rs, d);
    assert KillEvery(rs)[w].deviceId == d;
  }

  lemma WitnessOf(rs: seq<RefreshRecord>, d: DeviceId) returns (w: nat)
    requires KnownDevice(rs, d)
    ensures w < |rs| && rs[w].deviceId == d
  {
    w :| 0 <= w < |rs| && rs[w].deviceId == d;
  }

  /** The app's enrolment is the two steps of the agent's handler, one after the other. */
  lemma EnrolsAlike(s: State, d: DeviceId, name: string, h: Hash, e: Time, now: Time)
    requires Enabled(s, AppEnrols(d, name, h, e, now))
    ensures var s1 := Next(s, StartEnrol(d, name, now));
      && Enabled(s, StartEnrol(d, name, now)) && Enabled(s1, FinishEnrol(d, h, e, now))
      && Next(s1, FinishEnrol(d, h, e, now)).fs == Next(s, AppEnrols(d, name, h, e, now)).fs
  {
  }
}
