/** The alert engine: debounced thresholds, container alerts, and the bounded buffer. */
module Alerts {
  import opened Text
  import opened Wrappers

  type Time = int

  const DOWN := "container.down"

  /** `container` is the part of the alert's context that the engine reads again. */
  datatype Alert = Alert(id: string, severity: string, typ: string, at: Time, acked: bool, container: string)

  /** A rule with value 0 or less is off. */
  datatype Threshold = Threshold(value: real, forSeconds: Time)

  datatype Rules = Rules(cpu: Threshold, mem: Threshold, swap: Threshold, disk: Threshold, temp: Threshold)

  datatype Reading = Reading(name: string, value: real)
  datatype Metrics = Metrics(cpu: real, mem: real, swap: real, disks: seq<Reading>, sensors: seq<Reading>)

  /** `emitted` is what the `onAlert` callback has been given. */
  datatype State = State(
    buffer: seq<Alert>, breachAt: map<string, Time>, active: set<string>, down: set<string>, emitted: seq<Alert>)

  const INITIAL := State([], map[], {}, {}, [])

  datatype Event =
    | Check(now: Time, key: string, severity: string, value: real, t: Threshold, id: string)
    | Down(name: string, now: Time, id: string)
    | Up(name: string)
    | Acknowledge(id: string)

  // ----- Each operation, on values -----

  function Last(s: seq<Alert>, max: nat): seq<Alert> {
    if |s| > max then s[|s| - max..] else s
  }

  function Emit(s: State, max: nat, a: Alert): State {
    s.(buffer := Last(s.buffer + [a], max), emitted := s.emitted + [a])
  }

  function CheckAlert(e: Event): Alert
    requires e.Check?
  {
    Alert(e.id, e.severity, e.key, e.now, false, "")
  }

  function DownAlert(name: string, now: Time, id: string): Alert {
    Alert(id, "critical", DOWN, now, false, name)
  }

  /** Does this check raise an alert? */
  predicate Fires(s: State, e: Event)
    requires e.Check?
  {
    && 0.0 < e.t.value <= e.value && e.key !in s.active
    && e.now - (if e.key in s.breachAt then s.breachAt[e.key] else e.now) >= e.t.forSeconds
  }

  function CheckSpec(s: State, max: nat, e: Event): State
    requires e.Check?
  {
    if e.t.value <= 0.0 then s
    else if e.value < e.t.value then s.(breachAt := s.breachAt - {e.key}, active := s.active - {e.key})
    else
      var s' := if e.key in s.breachAt then s else s.(breachAt := s.breachAt[e.key := e.now]);
      if Fires(s, e) then Emit(s'.(active := s.active + {e.key}), max, CheckAlert(e)) else s'
  }

  function AckIf(a: Alert, b: bool): Alert { if b then a.(acked := true) else a }

  function AckContainer(buffer: seq<Alert>, name: string): (r: seq<Alert>)
    ensures |r| == |buffer|
    ensures forall i | 0 <= i < |r| :: r[i] == AckIf(buffer[i], buffer[i].typ == DOWN && buffer[i].container == name)
  {
    seq(|buffer|, i requires 0 <= i < |buffer| =>
      AckIf(buffer[i], buffer[i].typ == DOWN && buffer[i].container == name))
  }

  function FindId(buffer: seq<Alert>, id: string): nat { FirstWith(buffer, (a: Alert) => a.id, id) }

  function AckFirst(buffer: seq<Alert>, id: string): seq<Alert> {
    var i := FindId(buffer, id);
    if i < |buffer| then buffer[i := buffer[i].(acked := true)] else buffer
  }

  function Step(s: State, max: nat, e: Event): State {
    match e
    case Check(_, _, _, _, _, _) => CheckSpec(s, max, e)
    case Down(name, now, id) =>
      if name in s.down then s else Emit(s.(down := s.down + {name}), max, DownAlert(name, now, id))
    case Up(name) => s.(down := s.down - {name}, buffer := AckContainer(s.buffer, name))
    case Acknowledge(id) => s.(buffer := AckFirst(s.buffer, id))
  }

  function StepAll(s: State, max: nat, es: seq<Event>): State
    decreases |es|
  {
    if es == [] then s else Step(StepAll(s, max, es[..|es| - 1]), max, es[|es| - 1])
  }

  lemma StepAllNext(s: State, max: nat, es: seq<Event>, k: nat, s': State)
    requires k < |es| && s' == Step(StepAll(s, max, es[..k]), max, es[k])
    ensures s' == StepAll(s, max, es[..k + 1])
  {
    assert es[..k + 1][..k] == es[..k];
  }

  function DiskCheck(d: Reading, r: Rules, now: Time, id: string): Event {
    Check(now, "host.disk:" + d.name, "critical", d.value, r.disk, id)
  }

  function SensorCheck(t: Reading, r: Rules, now: Time, id: string): Event {
    Check(now, "host.temp:" + t.name, "critical", t.value, r.temp, id)
  }

  lemma {:induction false} StepAllAppend(s: State, max: nat, a: seq<Event>, b: seq<Event>)
    ensures StepAll(s, max, a + b) == StepAll(StepAll(s, max, a), max, b)
    decreases |b|
  {
    if b == [] {
      assert a + b == a;
    } else {
      StepAllAppend(s, max, a, b[..|b| - 1]);
      assert (a + b)[..|a + b| - 1] == a + b[..|b| - 1];
    }
  }

  function HostChecks(m: Metrics, r: Rules, now: Time, ids: nat -> string): (es: seq<Event>) {
    [Check(now, "host.cpu", "critical", m.cpu, r.cpu, ids(0)),
     Check(now, "host.mem", "critical", m.mem, r.mem, ids(1)),
     Check(now, "host.swap", "warning", m.swap, r.swap, ids(2))]
  }

  function DiskChecks(ds: seq<Reading>, r: Rules, now: Time, ids: nat -> string): (es: seq<Event>) {
    seq(|ds|, i requires 0 <= i < |ds| => DiskCheck(ds[i], r, now, ids(3 + i)))
  }

  function SensorChecks(ts: seq<Reading>, r: Rules, now: Time, ids: nat -> string, n: nat): (es: seq<Event>) {
    seq(|ts|, i requires 0 <= i < |ts| => SensorCheck(ts[i], r, now, ids(3 + n + i)))
  }

  /** The checks of one host sample, in order. */
  function SampleChecks(m: Metrics, r: Rules, now: Time, ids: nat -> string): (es: seq<Event>) {
    HostChecks(m, r, now, ids) + DiskChecks(m.disks, r, now, ids) + SensorChecks(m.sensors, r, now, ids, |m.disks|)
  }

  /** A host sample only makes threshold checks, none of them under the key of container alerts. */
  lemma SampleKeys(m: Metrics, r: Rules, now: Time, ids: nat -> string, i: nat)
    requires i < |SampleChecks(m, r, now, ids)|
    ensures SampleChecks(m, r, now, ids)[i].Check? && SampleChecks(m, r, now, ids)[i].key != DOWN
  {
    var e := SampleChecks(m, r, now, ids)[i];
    assert e.Check? && e.key[0] == 'h';
  }

  function Kept(a: Alert, severity: string): seq<Alert> {
    if severity == "" || a.severity == severity then [a] else []
  }

  /** The alerts of one severity (of all, when it is empty), newest first. */
  function Newest(buffer: seq<Alert>, severity: string): seq<Alert> {
    if buffer == [] then []
    else Kept(buffer[|buffer| - 1], severity) + Newest(buffer[..|buffer| - 1], severity)
  }

  lemma NewestNext(buffer: seq<Alert>, severity: string, i: nat)
    requires i < |buffer|
    ensures Newest(buffer[..i + 1], severity) == Kept(buffer[i], severity) + Newest(buffer[..i], severity)
  {
    assert buffer[..i + 1][..i] == buffer[..i];
  }

  function Cut(s: seq<Alert>, limit: int): seq<Alert> {
    if 0 < limit < |s| then s[..limit] else s
  }

  lemma CutAt(out: seq<Alert>, rest: seq<Alert>, limit: int)
    requires 0 < limit == |out|
    ensures Cut(out + rest, limit) == out
  {
  }

  class Engine {
    var rules: Rules
    const maxBuffer: nat
    var buffer: seq<Alert>
    var breachAt: map<string, Time>
    var active: set<string>
    var downCtrs: set<string>
    var emitted: seq<Alert>

    function View(): State
      reads this
    {
      State(buffer, breachAt, active, downCtrs, emitted)
    }

    constructor (rules: Rules, maxBuffer: int)
      ensures this.rules == rules && View() == INITIAL
      ensures this.maxBuffer == if maxBuffer <= 0 then 200 else maxBuffer
    {
      this.rules := rules;
      this.maxBuffer := if maxBuffer <= 0 then 200 else maxBuffer;
      buffer, breachAt, active, downCtrs, emitted := [], map[], {}, {}, [];
    }

    method UpdateRules(r: Rules)
      modifies this
      ensures rules == r && View() == old(View())
    {
      rules := r;
    }

    method EmitLocked(a: Alert)
      modifies this`buffer, this`emitted
      ensures View() == Emit(old(View()), maxBuffer, a)
    {
      buffer := buffer + [a];
      if |buffer| > maxBuffer {
        buffer := buffer[|buffer| - maxBuffer..];
      }
      emitted := emitted + [a];
    }

    method CheckRule(now: Time, typ: string, sev: string, value: real, t: Threshold, id: string)
      modifies this
      ensures View() == Step(old(View()), maxBuffer, Check(now, typ, sev, value, t, id)) && rules == old(rules)
      ensures emitted == old(emitted) +
        if 0.0 < t.value <= value && typ !in old(active)
           && now - (if typ in old(breachAt) then old(breachAt)[typ] else now) >= t.forSeconds
        then [Alert(id, sev, typ, now, false, "")] else []
    {
      if t.value <= 0.0 {
        return;
      }
      if value >= t.value {
        if typ !in breachAt {
          breachAt := breachAt[typ := now];
        }
        if typ in active {
          return;
        }
        if now - breachAt[typ] >= t.forSeconds {
          active := active + {typ};
          EmitLocked(Alert(id, sev, typ, now, false, ""));
        }
        return;
      }
      breachAt := breachAt - {typ};
      active := active - {typ};
    }

    method EvaluateDisks(ds: seq<Reading>, now: Time, ids: nat -> string)
      modifies this
      ensures View() == StepAll(old(View()), maxBuffer, DiskChecks(ds, rules, now, ids)) && rules == old(rules)
    {
      ghost var s, es := View(), DiskChecks(ds, rules, now, ids);
      for i := 0 to |ds|
        invariant rules == old(rules) && View() == StepAll(s, maxBuffer, es[..i])
      {
        var d := ds[i];
        CheckRule(now, "host.disk:" + d.name, "critical", d.value, rules.disk, ids(3 + i));
        StepAllNext(s, maxBuffer, es, i, View());
      }
      assert es[..|es|] == es;
    }

    method EvaluateSensors(ts: seq<Reading>, now: Time, ids: nat -> string, n: nat)
      modifies this
      ensures View() == StepAll(old(View()), maxBuffer, SensorChecks(ts, rules, now, ids, n)) && rules == old(rules)
    {
      ghost var s, es := View(), SensorChecks(ts, rules, now, ids, n);
      for i := 0 to |ts|
        invariant rules == old(rules) && View() == StepAll(s, maxBuffer, es[..i])
      {
        var t := ts[i];
        CheckRule(now, "host.temp:" + t.name, "critical", t.value, rules.temp, ids(3 + n + i));
        StepAllNext(s, maxBuffer, es, i, View());
      }
      assert es[..|es|] == es;
    }

    /** One sample: fixed readings, then disks, then sensors. */
    method EvaluateHost(m: Metrics, now: Time, ids: nat -> string)
      modifies this
      ensures View() == StepAll(old(View()), maxBuffer, SampleChecks(m, rules, now, ids)) && rules == old(rules)
    {
      ghost var s, es := View(), HostChecks(m, rules, now, ids);
      CheckRule(now, "host.cpu", "critical", m.cpu, rules.cpu, ids(0));
      StepAllNext(s, maxBuffer, es, 0, View());
      CheckRule(now, "host.mem", "critical", m.mem, rules.mem, ids(1));
      StepAllNext(s, maxBuffer, es, 1, View());
      CheckRule(now, "host.swap", "warning", m.swap, rules.swap, ids(2));
      StepAllNext(s, maxBuffer, es, 2, View());
      assert es[..3] == es;
      EvaluateDisks(m.disks, now, ids);
      EvaluateSensors(m.sensors, now, ids, |m.disks|);
      ghost var disks := DiskChecks(m.disks, rules, now, ids);
      ghost var sensors := SensorChecks(m.sensors, rules, now, ids, |m.disks|);
      StepAllAppend(s, maxBuffer, es, disks);
      StepAllAppend(s, maxBuffer, es + disks, sensors);
    }

    method ContainerDown(name: string, now: Time, id: string)
      modifies this
      ensures View() == Step(old(View()), maxBuffer, Down(name, now, id)) && rules == old(rules)
      ensures downCtrs == old(downCtrs) + {name}
      ensures emitted == old(emitted) +
        if name in old(downCtrs) then [] else [Alert(id, "critical", "container.down", now, false, name)]
    {
      if name in downCtrs {
        return;
      }
      downCtrs := downCtrs + {name};
      EmitLocked(Alert(id, "critical", DOWN, now, false, name));
    }

    method ContainerUp(name: string)
      modifies this
      ensures View() == Step(old(View()), maxBuffer, Up(name)) && rules == old(rules)
      ensures downCtrs == old(downCtrs) - {name} && emitted == old(emitted) && |buffer| == |old(buffer)|
      ensures forall i | 0 <= i < |buffer| ::
        var a := old(buffer)[i];
        buffer[i] == if a.typ == DOWN && a.container == name then a.(acked := true) else a
    {
      downCtrs := downCtrs - {name};
      ghost var was := buffer;
      for i := 0 to |buffer|
        invariant |buffer| == |was| && rules == old(rules)
        invariant breachAt == old(breachAt) && active == old(active) && emitted == old(emitted)
        invariant downCtrs == old(downCtrs) - {name}
        invariant forall k | 0 <= k < i :: buffer[k] == AckIf(was[k], was[k].typ == DOWN && was[k].container == name)
        invariant forall k | i <= k < |was| :: buffer[k] == was[k]
      {
        if buffer[i].typ == DOWN && buffer[i].container == name {
          buffer := buffer[i := buffer[i].(acked := true)];
        }
      }
      assert buffer == AckContainer(was, name);
    }

    method Ack(id: string)
      modifies this
      ensures View() == Step(old(View()), maxBuffer, Acknowledge(id)) && rules == old(rules)
      ensures |buffer| == |old(buffer)| && forall i | 0 <= i < |buffer| ::
        var a := old(buffer)[i];
        buffer[i] == if a.id == id && forall k | 0 <= k < i :: old(buffer)[k].id != id then a.(acked := true) else a
    {
      for i := 0 to |buffer|
        invariant View() == old(View()) && rules == old(rules)
        invariant forall k | 0 <= k < i :: buffer[k].id != id
      {
        if buffer[i].id == id {
          buffer := buffer[i := buffer[i].(acked := true)];
          return;
        }
      }
    }

    method List(severity: string, limit: int) returns (out: seq<Alert>)
      ensures out == Cut(Newest(buffer, severity), limit)
      ensures out <= Newest(buffer, severity)
      ensures |out| == if 0 < limit < |Newest(buffer, severity)| then limit else |Newest(buffer, severity)|
    {
      out := [];
      var i := |buffer|;
      assert buffer[..i] == buffer;
      while i > 0
        invariant 0 <= i <= |buffer|
        invariant Newest(buffer, severity) == out + Newest(buffer[..i], severity)
        invariant limit > 0 ==> |out| < limit
      {
        i := i - 1;
        var a := buffer[i];
        NewestNext(buffer, severity, i);
        if severity != "" && a.severity != severity {
          assert Newest(buffer[..i + 1], severity) == Newest(buffer[..i], severity);
          continue;
        }
        out := out + [a];
        assert Newest(buffer, severity) == out + Newest(buffer[..i], severity);
        if limit > 0 && |out| >= limit {
          CutAt(out, Newest(buffer[..i], severity), limit);
          return;
        }
      }
    }
  }

  // ----- Debouncing: what one key's alerts mean over a whole trace -----

  /** The state after the first `n` events. */
  function After(max: nat, es: seq<Event>, n: nat): State
    requires n <= |es|
  {
    if n == 0 then INITIAL else Step(After(max, es, n - 1), max, es[n - 1])
  }

  /** Event `i` samples `key` under a rule that is on. */
  predicate Sample(es: seq<Event>, key: string, i: int) {
    0 <= i < |es| && es[i].Check? && es[i].key == key && es[i].t.value > 0.0
  }

  predicate Breach(es: seq<Event>, key: string, i: int) { Sample(es, key, i) && es[i].value >= es[i].t.value }

  /** From sample `j` up to event `n`, every sample of the key breaches, and `j` opens the run. */
  ghost predicate Run(es: seq<Event>, key: string, j: int, n: int) {
    && 0 <= j < n <= |es| && Breach(es, key, j)
    && (forall p | j <= p < n && Sample(es, key, p) :: Breach(es, key, p))
    && (forall p | 0 <= p < j && Breach(es, key, p) ::
          exists q :: p < q < j && Sample(es, key, q) && !Breach(es, key, q))
  }

  /** Sample `i` is at least as long after `j` as its rule asks for. */
  predicate LongEnough(es: seq<Event>, key: string, j: int, i: int) {
    0 <= j < |es| && es[j].Check? && Sample(es, key, i) && es[i].now - es[j].now >= es[i].t.forSeconds
  }

  predicate Alerted(max: nat, es: seq<Event>, i: nat)
    requires i < |es| && es[i].Check?
  {
    Fires(After(max, es, i), es[i])
  }

  lemma OneRun(es: seq<Event>, key: string, j: int, j': int, n: int)
    requires Run(es, key, j, n) && Run(es, key, j', n)
    ensures j == j'
  {
  }

  lemma RunGrows(es: seq<Event>, key: string, j: int, n: nat)
    requires n < |es| && j < n
    ensures Run(es, key, j, n + 1) <==> Run(es, key, j, n) && (Sample(es, key, n) ==> Breach(es, key, n))
  {
  }

  lemma RunOpens(es: seq<Event>, key: string, n: nat)
    requires n < |es|
    ensures Run(es, key, n, n + 1) <==> Breach(es, key, n) && !exists j :: Run(es, key, j, n)
  {
    if Breach(es, key, n) && !exists j :: Run(es, key, j, n) {
      forall p | 0 <= p < n && Breach(es, key, p)
        ensures exists q :: p < q < n && Sample(es, key, q) && !Breach(es, key, q)
      {
        if forall q | p < q < n && Sample(es, key, q) :: Breach(es, key, q) {
          OpenRun(es, key, p, n);
        }
      }
    }
  }

  /** Going back from a breaching sample one gets to the one that opened its run. */
  lemma {:induction false} OpenRun(es: seq<Event>, key: string, p: int, n: nat)
    requires n <= |es| && 0 <= p < n && Breach(es, key, p)
    requires forall q | p < q < n && Sample(es, key, q) :: Breach(es, key, q)
    ensures exists j :: j <= p && Run(es, key, j, n)
    decreases p
  {
    if b :| 0 <= b < p && Breach(es, key, b) && forall q | b < q < p && Sample(es, key, q) :: Breach(es, key, q) {
      OpenRun(es, key, b, n);
    } else {
      assert Run(es, key, p, n);
    }
  }

  lemma OtherUntouched(s: State, max: nat, e: Event, key: string)
    requires !(e.Check? && e.key == key && e.t.value > 0.0)
    ensures var s' := Step(s, max, e);
      && (key in s'.breachAt <==> key in s.breachAt) && (key in s'.active <==> key in s.active)
      && (key in s.breachAt ==> s'.breachAt[key] == s.breachAt[key])
  {
  }

  /** What tracking looks at. */
  ghost predicate TracksKey(start: Option<Time>, active: bool, es: seq<Event>, key: string, n: nat) {
    && (start.Some? <==> exists j :: Run(es, key, j, n))
    && (forall j | Run(es, key, j, n) :: start == Some(es[j].now))
    && (active <==> exists j, p :: Run(es, key, j, n) && j <= p < n && LongEnough(es, key, j, p))
  }

  function StartOf(s: State, key: string): Option<Time> { if key in s.breachAt then Some(s.breachAt[key]) else None }

  lemma RunSkips(es: seq<Event>, key: string, j: int, n: nat)
    requires n < |es| && !Sample(es, key, n)
    ensures Run(es, key, j, n + 1) <==> Run(es, key, j, n)
  {
    if 0 <= j < n { RunGrows(es, key, j, n); }
  }

  lemma TracksOther(start: Option<Time>, active: bool, es: seq<Event>, key: string, n: nat)
    requires n < |es| && !Sample(es, key, n) && TracksKey(start, active, es, key, n)
    ensures TracksKey(start, active, es, key, n + 1)
  {
    var m := n + 1;
    if j :| Run(es, key, j, n) {
      RunSkips(es, key, j, n);
      assert Run(es, key, j, m);
      forall j' | Run(es, key, j', m) ensures j' == j { OneRun(es, key, j, j', m); }
      if active {
        var j', p :| Run(es, key, j', n) && j' <= p < n && LongEnough(es, key, j', p);
        OneRun(es, key, j, j', n);
        assert Run(es, key, j, m) && j <= p < m && LongEnough(es, key, j, p);
      } else {
        forall p | j <= p < m ensures !LongEnough(es, key, j, p) {
          if p < n { assert Run(es, key, j, n); }
        }
      }
    } else {
      forall j ensures !Run(es, key, j, m) { RunSkips(es, key, j, n); }
    }
  }

  lemma TracksOpening(es: seq<Event>, key: string, n: nat)
    requires n < |es| && Breach(es, key, n) && !exists j :: Run(es, key, j, n)
    ensures TracksKey(Some(es[n].now), LongEnough(es, key, n, n), es, key, n + 1)
  {
    var m := n + 1;
    RunOpens(es, key, n);
    forall j | Run(es, key, j, m) ensures j == n { OneRun(es, key, n, j, m); }
    if LongEnough(es, key, n, n) { assert Run(es, key, n, m) && n <= n < m; }
  }

  lemma TracksContinuing(start: Time, active: bool, es: seq<Event>, key: string, j: nat, n: nat)
    requires n < |es| && Breach(es, key, n) && Run(es, key, j, n) && TracksKey(Some(start), active, es, key, n)
    ensures TracksKey(Some(start), active || LongEnough(es, key, j, n), es, key, n + 1)
  {
    var m := n + 1;
    RunGrows(es, key, j, n);
    forall j' | Run(es, key, j', m) ensures j' == j { OneRun(es, key, j, j', m); }
    if active {
      var j', p :| Run(es, key, j', n) && j' <= p < n && LongEnough(es, key, j', p);
      OneRun(es, key, j, j', n);
      assert Run(es, key, j, m) && j <= p < m && LongEnough(es, key, j, p);
    } else if LongEnough(es, key, j, n) {
      assert Run(es, key, j, m) && j <= n < m;
    }
  }

  lemma TracksClosing(es: seq<Event>, key: string, n: nat)
    requires n < |es| && Sample(es, key, n) && !Breach(es, key, n)
    ensures TracksKey(None, false, es, key, n + 1)
  {
    var m := n + 1;
    forall j ensures !Run(es, key, j, m) {
    }
  }

  ghost predicate Tracks(s: State, es: seq<Event>, key: string, n: nat) {
    TracksKey(StartOf(s, key), key in s.active, es, key, n)
  }

  lemma TracksStep(s: State, max: nat, es: seq<Event>, key: string, n: nat)
    requires n < |es| && Tracks(s, es, key, n)
    ensures Tracks(Step(s, max, es[n]), es, key, n + 1)
  {
    var s' := Step(s, max, es[n]);
    if !Sample(es, key, n) {
      OtherUntouched(s, max, es[n], key);
      TracksOther(StartOf(s, key), key in s.active, es, key, n);
    } else if !Breach(es, key, n) {
      TracksClosing(es, key, n);
    } else if j :| Run(es, key, j, n) {
      TracksContinuing(es[j].now, key in s.active, es, key, j, n);
      assert StartOf(s', key) == Some(es[j].now);
      assert key in s'.active <==> key in s.active || LongEnough(es, key, j, n);
    } else {
      TracksOpening(es, key, n);
      assert StartOf(s', key) == Some(es[n].now);
      assert key in s'.active <==> key in s.active || LongEnough(es, key, n, n);
    }
  }

  lemma TracksNext(max: nat, es: seq<Event>, key: string, p: nat, n: nat)
    requires n == p + 1 <= |es| && Tracks(After(max, es, p), es, key, p)
    ensures Tracks(After(max, es, n), es, key, n)
  {
    assert After(max, es, n) == Step(After(max, es, p), max, es[p]);
    TracksStep(After(max, es, p), max, es, key, p);
  }

  lemma {:induction false} TracksAll(max: nat, es: seq<Event>, key: string, n: nat)
    requires n <= |es|
    ensures Tracks(After(max, es, n), es, key, n)
  {
    if n == 0 {
    } else {
      TracksAll(max, es, key, n - 1);
      TracksNext(max, es, key, n - 1, n);
    }
  }

  /** Sample `i` is the first of the run opened by `j` to come long enough after it. */
  ghost predicate FirstLongEnough(es: seq<Event>, key: string, j: int, i: int) {
    && Run(es, key, j, i + 1) && LongEnough(es, key, j, i)
    && forall p | j <= p < i :: !LongEnough(es, key, j, p)
  }

  /** A check raises an alert exactly when it is the first sample of a maximal run of breaches to
      come `forSeconds` or more after the run's first: whatever other keys, containers and
      acknowledgements do in between, and even if the rules change. */
  lemma AlertedExactly(max: nat, es: seq<Event>, i: nat)
    requires i < |es| && es[i].Check?
    ensures Alerted(max, es, i) <==> exists j :: FirstLongEnough(es, es[i].key, j, i)
  {
    var key, s, m := es[i].key, After(max, es, i), i + 1;
    TracksAll(max, es, key, i);
    RunOpens(es, key, i);
    if Breach(es, key, i) {
      if j :| Run(es, key, j, i) {
        RunGrows(es, key, j, i);
        forall j' | Run(es, key, j', m) ensures j' == j { OneRun(es, key, j, j', m); }
        forall j', p | Run(es, key, j', i) && j' <= p < i && LongEnough(es, key, j', p) ensures j' == j {
          OneRun(es, key, j, j', i);
        }
        assert Alerted(max, es, i) <==> FirstLongEnough(es, key, j, i);
      } else {
        forall j' | Run(es, key, j', m) ensures j' == i { OneRun(es, key, i, j', m); }
        assert Alerted(max, es, i) <==> FirstLongEnough(es, key, i, i);
      }
    }
  }

  lemma {:induction false} LeastLongEnough(es: seq<Event>, key: string, j: int, i: int) returns (f: int)
    requires Run(es, key, j, i + 1) && LongEnough(es, key, j, i)
    ensures FirstLongEnough(es, key, j, f) && f <= i
    decreases i - j
  {
    if p :| j <= p < i && LongEnough(es, key, j, p) {
      assert Run(es, key, j, p + 1);
      f := LeastLongEnough(es, key, j, p);
    } else {
      f := i;
    }
  }

  /** Alerts and long runs correspond one to one: a run that reaches its time has raised exactly
      one alert, at its first sample that is late enough. */
  lemma OneAlertPerLongRun(max: nat, es: seq<Event>, key: string, j: int, i: int)
    requires Run(es, key, j, i + 1) && LongEnough(es, key, j, i)
    ensures exists f | j <= f <= i ::
      && es[f].Check? && es[f].key == key && Alerted(max, es, f)
      && forall g | j <= g <= i && es[g].Check? && es[g].key == key && Alerted(max, es, g) :: g == f
  {
    var f := LeastLongEnough(es, key, j, i);
    AlertedExactly(max, es, f);
    forall g | j <= g <= i && es[g].Check? && es[g].key == key && Alerted(max, es, g) ensures g == f {
      AlertedExactly(max, es, g);
      var j' :| FirstLongEnough(es, key, j', g);
      assert Run(es, key, j, g + 1);
      OneRun(es, key, j, j', g + 1);
    }
  }

  // ----- What one host sample decides -----

  /** Start of the breach and whether it has been alerted, for one key. */
  function Status(s: State, key: string): (Option<Time>, bool) { (StartOf(s, key), key in s.active) }

  /** A reading against its threshold: an inactive rule changes nothing, a value below ends the
      breach, and one at or above starts or continues it and alerts once it has lasted. */
  function Judged(before: (Option<Time>, bool), value: real, t: Threshold, now: Time): (Option<Time>, bool) {
    if t.value <= 0.0 then before
    else if value < t.value then (None, false)
    else
      var start := if before.0.Some? then before.0.value else now;
      (Some(start), before.1 || now - start >= t.forSeconds)
  }

  lemma CheckJudges(s: State, max: nat, e: Event, key: string)
    requires e.Check?
    ensures Status(Step(s, max, e), key) ==
      if e.key == key then Judged(Status(s, key), e.value, e.t, e.now) else Status(s, key)
  {
  }

  ghost predicate OnlyCheck(es: seq<Event>, j: int, key: string) {
    && 0 <= j < |es| && es[j].Check? && es[j].key == key
    && forall i | 0 <= i < |es| && i != j :: es[i].Check? && es[i].key != key
  }

  lemma {:induction false} OthersLeaveIt(s: State, max: nat, es: seq<Event>, key: string)
    requires forall i | 0 <= i < |es| :: es[i].Check? && es[i].key != key
    ensures Status(StepAll(s, max, es), key) == Status(s, key)
    decreases |es|
  {
    if es == [] {
    } else {
      var n := |es| - 1;
      OthersLeaveIt(s, max, es[..n], key);
      CheckJudges(StepAll(s, max, es[..n]), max, es[n], key);
    }
  }

  lemma {:induction false} OneDecides(s: State, max: nat, es: seq<Event>, j: nat, key: string)
    requires OnlyCheck(es, j, key)
    ensures Status(StepAll(s, max, es), key) == Judged(Status(s, key), es[j].value, es[j].t, es[j].now)
    decreases |es|
  {
    var n := |es| - 1;
    var front := es[..n];
    CheckJudges(StepAll(s, max, front), max, es[n], key);
    if j == n {
      OthersLeaveIt(s, max, front, key);
    } else {
      OneDecides(s, max, front, j, key);
    }
  }

  /** The fixed readings: each is held against the threshold of its own rule, and nothing else
      decides about it. */
  lemma SampleDecides(s: State, max: nat, m: Metrics, r: Rules, now: Time, ids: nat -> string)
    ensures var s' := StepAll(s, max, SampleChecks(m, r, now, ids));
      && Status(s', "host.cpu") == Judged(Status(s, "host.cpu"), m.cpu, r.cpu, now)
      && Status(s', "host.mem") == Judged(Status(s, "host.mem"), m.mem, r.mem, now)
      && Status(s', "host.swap") == Judged(Status(s, "host.swap"), m.swap, r.swap, now)
  {
    var es := SampleChecks(m, r, now, ids);
    forall i | 3 <= i < |es| ensures es[i].Check? && es[i].key !in {"host.cpu", "host.mem", "host.swap"} {
      LaterKeys(m, r, now, ids, i);
    }
    assert "host.cpu"[5] == 'c' && "host.mem"[5] == 'm' && "host.swap"[5] == 's';
    OneDecides(s, max, es, 0, "host.cpu");
    OneDecides(s, max, es, 1, "host.mem");
    OneDecides(s, max, es, 2, "host.swap");
  }

  lemma LaterKeys(m: Metrics, r: Rules, now: Time, ids: nat -> string, i: nat)
    requires 3 <= i < |SampleChecks(m, r, now, ids)|
    ensures var e := SampleChecks(m, r, now, ids)[i]; e.Check? && |e.key| >= 10
  {
  }

  /** Disks and sensors: each is held against the threshold for disks or for temperatures, under a
      key made of its name, if no other of its kind has the name. */
  lemma NamedDecides(s: State, max: nat, m: Metrics, r: Rules, now: Time, ids: nat -> string, i: nat)
    ensures i < |m.disks| && (forall j | 0 <= j < |m.disks| && j != i :: m.disks[j].name != m.disks[i].name) ==>
      var key := "host.disk:" + m.disks[i].name;
      Status(StepAll(s, max, SampleChecks(m, r, now, ids)), key)
        == Judged(Status(s, key), m.disks[i].value, r.disk, now)
    ensures i < |m.sensors| && (forall j | 0 <= j < |m.sensors| && j != i :: m.sensors[j].name != m.sensors[i].name) ==>
      var key := "host.temp:" + m.sensors[i].name;
      Status(StepAll(s, max, SampleChecks(m, r, now, ids)), key)
        == Judged(Status(s, key), m.sensors[i].value, r.temp, now)
  {
    if i < |m.disks| && forall j | 0 <= j < |m.disks| && j != i :: m.disks[j].name != m.disks[i].name {
      DiskKeyOnce(m, r, now, ids, i);
      OneDecides(s, max, SampleChecks(m, r, now, ids), 3 + i, "host.disk:" + m.disks[i].name);
    }
    if i < |m.sensors| && forall j | 0 <= j < |m.sensors| && j != i :: m.sensors[j].name != m.sensors[i].name {
      SensorKeyOnce(m, r, now, ids, i);
      OneDecides(s, max, SampleChecks(m, r, now, ids), 3 + |m.disks| + i, "host.temp:" + m.sensors[i].name);
    }
  }

  lemma DiskKeyOnce(m: Metrics, r: Rules, now: Time, ids: nat -> string, i: nat)
    requires i < |m.disks| && forall j | 0 <= j < |m.disks| && j != i :: m.disks[j].name != m.disks[i].name
    ensures var es, key := SampleChecks(m, r, now, ids), "host.disk:" + m.disks[i].name;
      forall j | 0 <= j < |es| && j != 3 + i :: es[j].Check? && es[j].key != key
  {
    var es, key := SampleChecks(m, r, now, ids), "host.disk:" + m.disks[i].name;
    forall j | 0 <= j < |es| && j != 3 + i ensures es[j].Check? && es[j].key != key {
      KeysApart(m, r, now, ids, j);
      assert key[10..] == m.disks[i].name && key[5] == 'd';
    }
  }

  lemma SensorKeyOnce(m: Metrics, r: Rules, now: Time, ids: nat -> string, i: nat)
    requires i < |m.sensors| && forall j | 0 <= j < |m.sensors| && j != i :: m.sensors[j].name != m.sensors[i].name
    ensures var es, key, at := SampleChecks(m, r, now, ids), "host.temp:" + m.sensors[i].name, 3 + |m.disks| + i;
      forall j | 0 <= j < |es| && j != at :: es[j].Check? && es[j].key != key
  {
    var es, key, at := SampleChecks(m, r, now, ids), "host.temp:" + m.sensors[i].name, 3 + |m.disks| + i;
    forall j | 0 <= j < |es| && j != at ensures es[j].Check? && es[j].key != key {
      KeysApart(m, r, now, ids, j);
      assert key[10..] == m.sensors[i].name && key[5] == 't';
    }
  }

  /** The keys of a sample, by position. */
  lemma KeysApart(m: Metrics, r: Rules, now: Time, ids: nat -> string, j: nat)
    requires j < |SampleChecks(m, r, now, ids)|
    ensures var e, n := SampleChecks(m, r, now, ids)[j], 3 + |m.disks|;
      && e.Check?
      && (j < 3 ==> |e.key| < 10)
      && (3 <= j < n ==> |e.key| >= 10 && e.key[5] == 'd' && e.key[10..] == m.disks[j - 3].name)
      && (n <= j ==> |e.key| >= 10 && e.key[5] == 't' && e.key[10..] == m.sensors[j - n].name)
  {
  }

  /** The alert is about a reading of the sample that is at or above its threshold, and says so. */
  ghost predicate Matches(a: Alert, m: Metrics, r: Rules, now: Time) {
    && a.at == now && !a.acked && a.container == ""
    && (|| (a.typ == "host.cpu" && a.severity == "critical" && 0.0 < r.cpu.value <= m.cpu)
        || (a.typ == "host.mem" && a.severity == "critical" && 0.0 < r.mem.value <= m.mem)
        || (a.typ == "host.swap" && a.severity == "warning" && 0.0 < r.swap.value <= m.swap)
        || (a.severity == "critical" && exists i | 0 <= i < |m.disks| ::
              a.typ == "host.disk:" + m.disks[i].name && 0.0 < r.disk.value <= m.disks[i].value)
        || (a.severity == "critical" && exists i | 0 <= i < |m.sensors| ::
              a.typ == "host.temp:" + m.sensors[i].name && 0.0 < r.temp.value <= m.sensors[i].value))
  }

  lemma CheckMatches(m: Metrics, r: Rules, now: Time, ids: nat -> string, i: nat)
    requires i < |SampleChecks(m, r, now, ids)|
    ensures var e := SampleChecks(m, r, now, ids)[i];
      e.Check? && (0.0 < e.t.value <= e.value ==> Matches(CheckAlert(e), m, r, now))
  {
    var n := 3 + |m.disks|;
    if 3 <= i < n {
      assert SampleChecks(m, r, now, ids)[i] == DiskCheck(m.disks[i - 3], r, now, ids(i));
    } else if n <= i {
      assert SampleChecks(m, r, now, ids)[i] == SensorCheck(m.sensors[i - n], r, now, ids(i));
    }
  }

  lemma {:induction false} PrefixAlerts(s: State, max: nat, m: Metrics, r: Rules, now: Time, ids: nat -> string, k: nat)
    requires k <= |SampleChecks(m, r, now, ids)|
    ensures var s' := StepAll(s, max, SampleChecks(m, r, now, ids)[..k]);
      && s.emitted <= s'.emitted
      && forall i | |s.emitted| <= i < |s'.emitted| :: Matches(s'.emitted[i], m, r, now)
  {
    if k == 0 {
    } else {
      var es := SampleChecks(m, r, now, ids);
      var before := StepAll(s, max, es[..k - 1]);
      PrefixAlerts(s, max, m, r, now, ids, k - 1);
      CheckMatches(m, r, now, ids, k - 1);
      StepAllNext(s, max, es, k - 1, Step(before, max, es[k - 1]));
    }
  }

  /** Every alert a sample raises is about a reading of it that breaches its own rule, with that
      rule's severity and the time of the sample. */
  lemma SampleAlerts(s: State, max: nat, m: Metrics, r: Rules, now: Time, ids: nat -> string)
    ensures var s' := StepAll(s, max, SampleChecks(m, r, now, ids));
      && s.emitted <= s'.emitted
      && forall i | |s.emitted| <= i < |s'.emitted| :: Matches(s'.emitted[i], m, r, now)
  {
    var es := SampleChecks(m, r, now, ids);
    assert es[..|es|] == es;
    PrefixAlerts(s, max, m, r, now, ids, |es|);
  }

  // ----- The buffer -----

  predicate SameAlert(a: Alert, b: Alert) { a.(acked := true) == b.(acked := true) }

  function Oldest(s: State): int { |s.emitted| - |s.buffer| }

  /** The buffer is the last `max` alerts ever emitted, up to their acked flags. */
  ghost predicate KeepsLast(s: State, max: nat) {
    && |s.buffer| == (if |s.emitted| <= max then |s.emitted| else max)
    && forall i | 0 <= i < |s.buffer| :: SameAlert(s.buffer[i], s.emitted[Oldest(s) + i])
  }

  /** Whatever both buffers hold and was acknowledged still is. */
  ghost predicate AcksStay(s: State, s': State) {
    var d := Oldest(s') - Oldest(s);
    && 0 <= d
    && forall i | d <= i < |s.buffer| && s.buffer[i].acked :: i - d < |s'.buffer| && s'.buffer[i - d].acked
  }

  /** Only containers that are down have open alerts. */
  ghost predicate UpIsAcked(s: State) {
    forall i | 0 <= i < |s.buffer| && s.buffer[i].typ == DOWN && s.buffer[i].container !in s.down :: s.buffer[i].acked
  }

  lemma EmitLengths(s: State, max: nat, a: Alert)
    requires max > 0 && |s.buffer| <= max
    ensures var s', d := Emit(s, max, a), if |s.buffer| == max then 1 else 0;
      |s'.buffer| == |s.buffer| + 1 - d && Oldest(s') == Oldest(s) + d && s'.buffer[|s'.buffer| - 1] == a
  {
  }

  /** Where an alert of the buffer is found after one more is emitted. */
  lemma EmitShifts(s: State, max: nat, a: Alert, i: nat)
    requires max > 0 && |s.buffer| <= max && i < |s.buffer|
    ensures var s', d := Emit(s, max, a), if |s.buffer| == max then 1 else 0;
      |s'.buffer| == |s.buffer| + 1 - d && (i >= d ==> s'.buffer[i - d] == s.buffer[i])
  {
  }

  lemma EmitKeepsLast(s: State, max: nat, a: Alert)
    requires KeepsLast(s, max) && max > 0
    ensures KeepsLast(Emit(s, max, a), max)
  {
    var s', d := Emit(s, max, a), if |s.buffer| == max then 1 else 0;
    EmitLengths(s, max, a);
    forall i | 0 <= i < |s'.buffer| ensures SameAlert(s'.buffer[i], s'.emitted[Oldest(s') + i]) {
      if i < |s'.buffer| - 1 {
        EmitShifts(s, max, a, i + d);
        assert SameAlert(s.buffer[i + d], s.emitted[Oldest(s) + (i + d)]);
      }
    }
  }

  lemma EmitKeepsAcks(s: State, max: nat, a: Alert)
    requires KeepsLast(s, max) && max > 0
    ensures AcksStay(s, Emit(s, max, a))
  {
    var s' := Emit(s, max, a);
    EmitLengths(s, max, a);
    var d := Oldest(s') - Oldest(s);
    forall i | d <= i < |s.buffer| && s.buffer[i].acked ensures i - d < |s'.buffer| && s'.buffer[i - d].acked {
      EmitShifts(s, max, a, i);
    }
  }

  lemma EmitKeepsUp(s: State, max: nat, a: Alert)
    requires KeepsLast(s, max) && max > 0 && UpIsAcked(s) && (a.typ == DOWN ==> a.container in s.down)
    ensures UpIsAcked(Emit(s, max, a))
  {
    var s', d := Emit(s, max, a), if |s.buffer| == max then 1 else 0;
    EmitLengths(s, max, a);
    forall i | 0 <= i < |s'.buffer| && s'.buffer[i].typ == DOWN && s'.buffer[i].container !in s.down
      ensures s'.buffer[i].acked
    {
      if i < |s'.buffer| - 1 {
        EmitShifts(s, max, a, i + d);
      }
    }
  }

  ghost predicate BufferOk(s: State, max: nat) { KeepsLast(s, max) && UpIsAcked(s) }

  lemma EmitKeeps(s: State, max: nat, a: Alert)
    requires BufferOk(s, max) && max > 0 && (a.typ == DOWN ==> a.container in s.down)
    ensures BufferOk(Emit(s, max, a), max) && AcksStay(s, Emit(s, max, a))
  {
    EmitKeepsLast(s, max, a);
    EmitKeepsAcks(s, max, a);
    EmitKeepsUp(s, max, a);
  }

  lemma CheckKeeps(s: State, max: nat, e: Event)
    requires max > 0 && BufferOk(s, max) && e.Check? && e.key != DOWN
    ensures BufferOk(CheckSpec(s, max, e), max) && AcksStay(s, CheckSpec(s, max, e))
  {
    var s' := CheckSpec(s, max, e);
    if Fires(s, e) {
      var t := s'.(buffer := s.buffer, emitted := s.emitted);
      SameBuffer(s, max, t);
      EmitKeeps(t, max, CheckAlert(e));
      assert s' == Emit(t, max, CheckAlert(e));
      AcksFrom(s, t, s');
    } else {
      SameBuffer(s, max, s');
    }
  }

  lemma AcksFrom(s: State, t: State, s': State)
    requires t.buffer == s.buffer && t.emitted == s.emitted && AcksStay(t, s')
    ensures AcksStay(s, s')
  {
  }

  lemma SameBuffer(s: State, max: nat, t: State)
    requires BufferOk(s, max) && t.buffer == s.buffer && t.emitted == s.emitted && t.down == s.down
    ensures BufferOk(t, max) && AcksStay(s, t)
  {
  }

  lemma AckKeeps(s: State, max: nat, s': State)
    requires BufferOk(s, max) && s'.emitted == s.emitted && |s'.buffer| == |s.buffer|
    requires forall i | 0 <= i < |s.buffer| ::
      s'.buffer[i] == s.buffer[i] || s'.buffer[i] == s.buffer[i].(acked := true)
    requires forall i | 0 <= i < |s.buffer| && s.buffer[i].typ == DOWN && s.buffer[i].container in s.down
                        && s.buffer[i].container !in s'.down :: s'.buffer[i].acked
    ensures BufferOk(s', max) && AcksStay(s, s')
  {
    forall i | 0 <= i < |s'.buffer| ensures SameAlert(s'.buffer[i], s'.emitted[Oldest(s') + i]) {
      assert SameAlert(s.buffer[i], s.emitted[Oldest(s) + i]);
    }
  }

  lemma DownKeeps(s: State, max: nat, name: string, now: Time, id: string)
    requires max > 0 && BufferOk(s, max)
    ensures var s' := Step(s, max, Down(name, now, id)); BufferOk(s', max) && AcksStay(s, s')
  {
    if name !in s.down {
      var t := s.(down := s.down + {name});
      assert KeepsLast(t, max) && UpIsAcked(t);
      EmitKeeps(t, max, DownAlert(name, now, id));
      AcksFrom(s, t, Emit(t, max, DownAlert(name, now, id)));
    }
  }

  lemma StepKeeps(s: State, max: nat, e: Event)
    requires max > 0 && BufferOk(s, max) && (e.Check? ==> e.key != DOWN)
    ensures BufferOk(Step(s, max, e), max) && AcksStay(s, Step(s, max, e))
  {
    match e
    case Check(_, _, _, _, _, _) => CheckKeeps(s, max, e);
    case Down(name, now, id) => DownKeeps(s, max, name, now, id);
    case Up(name) => AckKeeps(s, max, Step(s, max, e));
    case Acknowledge(id) => AckKeeps(s, max, Step(s, max, e));
  }

  /** In every run the buffer is the last `maxBuffer` alerts, an acknowledged alert stays so, and
      every alert of a container that is not down is acknowledged. */
  lemma {:induction false} BufferOfRun(max: nat, es: seq<Event>, n: nat)
    requires max > 0 && n <= |es| && forall i | 0 <= i < |es| && es[i].Check? :: es[i].key != DOWN
    ensures BufferOk(After(max, es, n), max)
    ensures n > 0 ==> AcksStay(After(max, es, n - 1), After(max, es, n))
  {
    if n == 0 {
    } else {
      BufferOfRun(max, es, n - 1);
      var s := After(max, es, n - 1);
      StepKeeps(s, max, es[n - 1]);
      assert After(max, es, n) == Step(s, max, es[n - 1]);
    }
  }

  lemma {:induction false} NewestReverses(buffer: seq<Alert>)
    ensures |Newest(buffer, "")| == |buffer|
    ensures forall i | 0 <= i < |buffer| :: Newest(buffer, "")[i] == buffer[|buffer| - 1 - i]
  {
    if buffer == [] {
    } else {
      NewestReverses(buffer[..|buffer| - 1]);
    }
  }

  lemma LastApart(a: seq<Alert>, b: seq<Alert>)
    requires b != []
    ensures var front, x := b[..|b| - 1], b[|b| - 1]; b == front + [x] && a + b == a + front + [x]
  {
  }

  lemma Regroup(k: seq<Alert>, f: seq<Alert>, a: seq<Alert>, whole: seq<Alert>, b: seq<Alert>)
    requires whole == k + (f + a) && b == k + f
    ensures whole == b + a
  {
  }

  lemma NewestSnoc(s: seq<Alert>, x: Alert, severity: string)
    ensures Newest(s + [x], severity) == Kept(x, severity) + Newest(s, severity)
  {
    assert (s + [x])[..|s|] == s;
  }

  lemma {:induction false} NewestAppend(a: seq<Alert>, b: seq<Alert>, severity: string)
    ensures Newest(a + b, severity) == Newest(b, severity) + Newest(a, severity)
    decreases |b|
  {
    if b == [] {
      assert a + b == a;
    } else {
      var front, x := b[..|b| - 1], b[|b| - 1];
      LastApart(a, b);
      NewestAppend(a, front, severity);
      NewestSnoc(front, x, severity);
      NewestSnoc(a + front, x, severity);
      Regroup(Kept(x, severity), Newest(front, severity), Newest(a, severity),
              Newest(a + b, severity), Newest(b, severity));
    }
  }

  lemma {:induction false} NoneNewest(buffer: seq<Alert>, severity: string)
    requires severity != "" && forall k | 0 <= k < |buffer| :: buffer[k].severity != severity
    ensures Newest(buffer, severity) == []
  {
    if buffer == [] {
    } else {
      NoneNewest(buffer[..|buffer| - 1], severity);
    }
  }

  /** Filtering keeps exactly the alerts of the severity, in the order of the full list. */
  lemma NewestFilters(buffer: seq<Alert>, severity: string, i: nat, j: nat)
    requires severity != "" && i <= j < |buffer| && buffer[j].severity == severity
    requires forall k | i <= k < j :: buffer[k].severity != severity
    ensures Newest(buffer, severity) == Newest(buffer[j + 1..], severity) + [buffer[j]] + Newest(buffer[..i], severity)
  {
    var a, b, c, d := buffer[..i], buffer[i..j], [buffer[j]], buffer[j + 1..];
    assert buffer == ((a + b) + c) + d;
    NewestAppend((a + b) + c, d, severity);
    NewestAppend(a + b, c, severity);
    NewestAppend(a, b, severity);
    NoneNewest(b, severity);
    assert Newest(c, severity) == c + Newest([], severity);
  }
}
