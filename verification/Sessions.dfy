/** The terminal session registry, with creations that check and insert in separate steps. */
module Sessions {
  type Id = string

  datatype CreateResult = Proceed | Full
  datatype KillResult = Killed | NotFound

  function Limit(max: int): nat { if max <= 0 then 4 else max }

  function Ttl(ttl: int): int { if ttl <= 0 then 60_000_000_000 else ttl }

  // ----- Interleavings -----

  /** The registry and how many creations are between their check and their insertion. */
  datatype State = State(sessions: map<Id, int>, pending: nat)

  const INITIAL := State(map[], 0)

  datatype Action =
    | Begin
    | Complete(id: Id, now: int)
    | Abort
    | Activity(id: Id, now: int)
    | KillOne(id: Id)
    | KillEvery
    | SweepAt(now: int)

  /** Sessions idle for longer than `ttl`. */
  function Expired(m: map<Id, int>, ttl: int, now: int): set<Id> {
    set id | id in m && now - m[id] > ttl
  }

  predicate Enabled(max: nat, s: State, a: Action) {
    match a
    case Begin => |s.sessions| < max
    case Complete(_, _) => s.pending > 0
    case Abort => s.pending > 0
    case _ => true
  }

  function Next(ttl: int, s: State, a: Action): State
    requires (a.Complete? || a.Abort?) ==> s.pending > 0
  {
    match a
    case Begin => s.(pending := s.pending + 1)
    case Complete(id, now) => State(s.sessions[id := now], s.pending - 1)
    case Abort => s.(pending := s.pending - 1)
    case Activity(id, now) => s.(sessions := if id in s.sessions then s.sessions[id := now] else s.sessions)
    case KillOne(id) => s.(sessions := s.sessions - {id})
    case KillEvery => s.(sessions := map[])
    case SweepAt(now) => s.(sessions := s.sessions - Expired(s.sessions, ttl, now))
  }

  class Manager {
    const max: nat
    const idleTTL: int
    /** Live sessions with the time of their last activity. */
    var sessions: map<Id, int>
    /** How many calls of `Create` have passed their check and not come to an end yet. */
    ghost var pending: nat

    ghost function View(): State
      reads this
    {
      State(sessions, pending)
    }

    constructor (max: int, idleTTL: int)
      ensures this.max == Limit(max) && this.idleTTL == Ttl(idleTTL) && View() == INITIAL
    {
      this.max, this.idleTTL, sessions, pending := Limit(max), Ttl(idleTTL), map[], 0;
    }

    /** The first half of `Create`: the registry is unlocked again afterwards. */
    method Check() returns (r: CreateResult)
      modifies this`pending
      ensures r == Proceed <==> Enabled(max, old(View()), Begin)
      ensures r == Proceed <==> |sessions| < max
      ensures View() == if r == Proceed then Next(idleTTL, old(View()), Begin) else old(View())
    {
      if |sessions| >= max {
        return Full;
      }
      pending := pending + 1;
      return Proceed;
    }

    /** The second half, once the shell has started. */
    method Insert(id: Id, now: int)
      requires Enabled(max, View(), Complete(id, now))
      modifies this
      ensures View() == Next(idleTTL, old(View()), Complete(id, now))
      ensures sessions == old(sessions)[id := now]
    {
      sessions := sessions[id := now];
      pending := pending - 1;
    }

    /** The shell could not be started. */
    method GiveUp()
      requires Enabled(max, View(), Abort)
      modifies this`pending
      ensures View() == Next(idleTTL, old(View()), Abort)
    {
      pending := pending - 1;
    }

    method Touch(id: Id, now: int)
      modifies this`sessions
      ensures View() == Next(idleTTL, old(View()), Activity(id, now))
      ensures sessions == if id in old(sessions) then old(sessions)[id := now] else old(sessions)
    {
      if id in sessions {
        sessions := sessions[id := now];
      }
    }

    method Kill(id: Id) returns (r: KillResult)
      modifies this`sessions
      ensures r == NotFound <==> id !in old(sessions)
      ensures View() == Next(idleTTL, old(View()), KillOne(id)) && sessions == old(sessions) - {id}
    {
      if id !in sessions {
        return NotFound;
      }
      sessions := sessions - {id};
      return Killed;
    }

    method KillAll() returns (killed: set<Id>)
      modifies this`sessions
      ensures killed == old(sessions).Keys
      ensures View() == Next(idleTTL, old(View()), KillEvery) && sessions == map[]
    {
      killed := sessions.Keys;
      sessions := map[];
    }

    method Sweep(now: int) returns (expired: set<Id>)
      modifies this`sessions
      ensures forall id :: id in expired <==> id in old(sessions) && now - old(sessions)[id] > idleTTL
      ensures sessions == old(sessions) - expired
      ensures View() == Next(idleTTL, old(View()), SweepAt(now))
    {
      expired := {};
      var todo := sessions.Keys;
      while todo != {}
        invariant todo <= sessions.Keys && sessions == old(sessions)
        invariant expired == Expired(sessions, idleTTL, now) - todo
        decreases todo
      {
        var id :| id in todo;
        todo := todo - {id};
        if now - sessions[id] > idleTTL {
          expired := expired + {id};
        }
      }
      sessions := sessions - expired;
    }
  }

  ghost predicate IsRun(max: nat, ttl: int, ss: seq<State>, acts: seq<Action>) {
    && |ss| == |acts| + 1 && ss[0] == INITIAL
    && forall k | 0 <= k < |acts| :: Enabled(max, ss[k], acts[k]) && ss[k + 1] == Next(ttl, ss[k], acts[k])
  }

  lemma {:induction false} RemovingShrinks(m: map<Id, int>, gone: set<Id>)
    ensures |m - gone| <= |m|
    decreases |m|
  {
    if id :| id in m.Keys * gone {
      RemovingShrinks(m - {id}, gone);
      assert (m - {id}) - gone == m - gone;
      assert |m - {id}| == |m| - 1 by {
        assert (m - {id}).Keys == m.Keys - {id};
        assert |(m - {id}).Keys| == |m - {id}| && |m.Keys| == |m|;
      }
    } else {
      assert m - gone == m;
    }
  }

  lemma InsertGrows(m: map<Id, int>, id: Id, t: int)
    ensures |m[id := t]| <= |m| + 1
    ensures id in m ==> |m[id := t]| == |m|
  {
    var m' := m[id := t];
    assert m'.Keys == m.Keys + {id};
    assert |m'.Keys| == |m'| && |m.Keys| == |m|;
    if id in m { assert m'.Keys == m.Keys; }
  }

  lemma StepBound(max: nat, ttl: int, k: nat, s: State, a: Action)
    requires max > 0 && Enabled(max, s, a) && |s.sessions| + s.pending <= max - 1 + k
    requires Next(ttl, s, a).pending <= k
    ensures var s' := Next(ttl, s, a); |s'.sessions| + s'.pending <= max - 1 + k
  {
    match a
    case Complete(id, now) => InsertGrows(s.sessions, id, now);
    case Activity(id, now) => InsertGrows(s.sessions, id, now);
    case KillOne(id) => RemovingShrinks(s.sessions, {id});
    case SweepAt(now) => RemovingShrinks(s.sessions, Expired(s.sessions, ttl, now));
    case _ =>
  }

  ghost predicate Within(max: nat, k: nat, s: State) { |s.sessions| + s.pending <= max - 1 + k }

  /** At no time are more than `k` creations in flight. */
  ghost predicate InFlight(ss: seq<State>, k: nat) { forall j | 0 <= j < |ss| :: ss[j].pending <= k }

  lemma RunStep(max: nat, ttl: int, ss: seq<State>, acts: seq<Action>, i: nat)
    requires IsRun(max, ttl, ss, acts) && i < |acts|
    ensures Enabled(max, ss[i], acts[i]) && ss[i + 1] == Next(ttl, ss[i], acts[i])
  {
  }

  lemma WithinStep(max: nat, ttl: int, k: nat, ss: seq<State>, acts: seq<Action>, i: nat)
    requires max > 0 && IsRun(max, ttl, ss, acts) && InFlight(ss, k) && i < |acts| && Within(max, k, ss[i])
    ensures Within(max, k, ss[i + 1])
  {
    RunStep(max, ttl, ss, acts, i);
    var s' := ss[i + 1];
    assert s'.pending <= k;
    StepBound(max, ttl, k, ss[i], acts[i]);
  }

  lemma {:induction false} RunWithin(max: nat, ttl: int, k: nat, ss: seq<State>, acts: seq<Action>, i: nat)
    requires max > 0 && IsRun(max, ttl, ss, acts) && InFlight(ss, k) && i < |ss|
    ensures Within(max, k, ss[i])
  {
    if i == 0 {
      assert |ss[0].sessions| == 0;
    } else {
      RunWithin(max, ttl, k, ss, acts, i - 1);
      WithinStep(max, ttl, k, ss, acts, i - 1);
    }
  }

  /** With at most `k` creations in flight at a time the registry never holds more than
      `max - 1 + k` sessions; when they run one at a time, never more than `max`. */
  lemma Bound(max: nat, ttl: int, k: nat, ss: seq<State>, acts: seq<Action>, i: nat)
    requires max > 0 && IsRun(max, ttl, ss, acts) && InFlight(ss, k) && i < |ss|
    ensures |ss[i].sessions| <= max - 1 + k
    ensures k <= 1 ==> |ss[i].sessions| <= max
  {
    RunWithin(max, ttl, k, ss, acts, i);
  }

  // ----- Who is swept -----

  /** The step is a sign of life of the session, at its time. */
  predicate Touches(a: Action, id: Id) { (a.Complete? || a.Activity?) && a.id == id }

  /** Step `j` is the last of the first `k` to be one. */
  ghost predicate LastTouch(acts: seq<Action>, j: int, k: nat, id: Id) {
    0 <= j < k <= |acts| && Touches(acts[j], id) && forall l | j < l < k :: !Touches(acts[l], id)
  }

  /** A live session carries the time of its last sign of life. */
  lemma {:induction false} RunTouched(max: nat, ttl: int, ss: seq<State>, acts: seq<Action>, k: nat, id: Id)
    requires IsRun(max, ttl, ss, acts) && k < |ss| && id in ss[k].sessions
    ensures exists j :: LastTouch(acts, j, k, id) && ss[k].sessions[id] == acts[j].now
  {
    if k == 0 {
    } else {
      var p := k - 1;
      RunStep(max, ttl, ss, acts, p);
      if Touches(acts[p], id) {
        assert LastTouch(acts, p, k, id);
      } else {
        RunTouched(max, ttl, ss, acts, p, id);
        var j :| LastTouch(acts, j, p, id) && ss[p].sessions[id] == acts[j].now;
        assert LastTouch(acts, j, k, id);
      }
    }
  }

  /** In every run, a sweep removes of the live sessions exactly those whose last sign of life is
      longer ago than the limit, and touches nothing else. */
  lemma SweptIff(max: nat, ttl: int, ss: seq<State>, acts: seq<Action>, k: nat, id: Id)
    requires IsRun(max, ttl, ss, acts) && k < |acts| && acts[k].SweepAt? && id in ss[k].sessions
    ensures exists j ::
      && LastTouch(acts, j, k, id)
      && (id in ss[k + 1].sessions <==> acts[k].now - acts[j].now <= ttl)
      && (id in ss[k + 1].sessions ==> ss[k + 1].sessions[id] == ss[k].sessions[id])
  {
    RunTouched(max, ttl, ss, acts, k, id);
    RunStep(max, ttl, ss, acts, k);
  }

  /** A live session ends in a kill of its own or of all, or in a sweep; nothing else ends it. */
  lemma EndsOnlyBy(ttl: int, s: State, a: Action, id: Id)
    requires ((a.Complete? || a.Abort?) ==> s.pending > 0) && id in s.sessions
    ensures id !in Next(ttl, s, a).sessions <==>
      a == KillOne(id) || a == KillEvery || (a.SweepAt? && a.now - s.sessions[id] > ttl)
  {
  }
}
