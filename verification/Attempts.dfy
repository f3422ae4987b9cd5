/** Brute-force lockout: failures within a sliding window. */
module Attempts {
  type Time = int
  type Key = string

  /** What the tracker holds for one key: failures still counted, and the end of a lockout. */
  datatype Entry = Entry(failures: seq<Time>, lockedUntil: Until)
  datatype Until = Never | At(time: Time)

  datatype Limits = Limits(maxAttempts: int, window: Time, lockout: Time)

  function Recent(fails: seq<Time>, cutoff: Time): seq<Time> {
    if fails == [] then []
    else
      var n := |fails| - 1;
      Recent(fails[..n], cutoff) + if fails[n] > cutoff then [fails[n]] else []
  }

  function FailSpec(l: Limits, e: Entry, now: Time): (Entry, bool) {
    var kept := Recent(e.failures, now - l.window) + [now];
    if |kept| >= l.maxAttempts then (Entry([], At(now + l.lockout)), true)
    else (Entry(kept, e.lockedUntil), false)
  }

  predicate LockedSpec(e: Entry, now: Time) { e.lockedUntil.At? && now < e.lockedUntil.time }

  function AfterLocked(e: Entry, now: Time): Entry {
    if LockedSpec(e, now) then e else Entry(e.failures, Never)
  }

  /** `kept := fails[:0]` filled by the loop over `fails`: both are the same array. */
  method CompactInPlace(fails: array<Time>, cutoff: Time) returns (k: nat)
    modifies fails
    ensures k <= fails.Length
    ensures fails[..k] == Recent(old(fails[..]), cutoff)
  {
    k := 0;
    ghost var all := fails[..];
    for i := 0 to fails.Length
      invariant k <= i
      invariant fails[..k] == Recent(all[..i], cutoff)
      invariant fails[i..] == all[i..]
    {
      var f := fails[i];
      assert f == fails[i..][0] == all[i];
      assert all[..i + 1][..i] == all[..i];
      if f > cutoff {
        fails[k] := f;
        k := k + 1;
      }
    }
    assert all[..fails.Length] == all;
  }

  /** The stored slice, compacted in its array. */
  method Compact(fails: seq<Time>, cutoff: Time) returns (kept: seq<Time>)
    ensures kept == Recent(fails, cutoff)
  {
    var a := new Time[|fails|](i requires 0 <= i < |fails| => fails[i]);
    assert a[..] == fails;
    var k := CompactInPlace(a, cutoff);
    kept := a[..k];
  }

  class AttemptTracker {
    const l: Limits
    var failures: map<Key, seq<Time>>
    var lockedUntil: map<Key, Time>

    constructor (maxAttempts: int, window: Time, lockout: Time)
      ensures l == Limits(maxAttempts, window, lockout) && failures == map[] && lockedUntil == map[]
    {
      l, failures, lockedUntil := Limits(maxAttempts, window, lockout), map[], map[];
    }

    function EntryOf(key: Key): Entry
      reads this
    {
      Entry(if key in failures then failures[key] else [],
            if key in lockedUntil then At(lockedUntil[key]) else Never)
    }

    method Locked(key: Key, now: Time) returns (locked: bool)
      modifies this
      ensures locked == LockedSpec(old(EntryOf(key)), now)
      ensures EntryOf(key) == AfterLocked(old(EntryOf(key)), now)
      ensures forall k | k != key :: EntryOf(k) == old(EntryOf(k))
    {
      if key in lockedUntil && now < lockedUntil[key] {
        return true;
      }
      if key in lockedUntil {
        lockedUntil := lockedUntil - {key};
      }
      return false;
    }

    method Fail(key: Key, now: Time) returns (triggered: bool)
      modifies this
      ensures (EntryOf(key), triggered) == FailSpec(l, old(EntryOf(key)), now)
      ensures forall k | k != key :: EntryOf(k) == old(EntryOf(k))
    {
      var fails := if key in failures then failures[key] else [];
      var kept := Compact(fails, now - l.window);
      kept := kept + [now];
      failures := failures[key := kept];
      if |kept| >= l.maxAttempts {
        lockedUntil := lockedUntil[key := now + l.lockout];
        failures := failures[key := []];
        return true;
      }
      return false;
    }

    method Success(key: Key)
      modifies this
      ensures EntryOf(key) == Entry([], Never)
      ensures forall k | k != key :: EntryOf(k) == old(EntryOf(k))
    {
      failures := failures - {key};
      lockedUntil := lockedUntil - {key};
    }
  }

  // ----- Against the whole history of a key -----

  datatype Event = Failed(now: Time) | Succeeded(now: Time) | Asked(now: Time)

  predicate ClockOk(es: seq<Event>) { forall i, j | 0 <= i < j < |es| :: es[i].now <= es[j].now }

  function Step(l: Limits, e: Entry, ev: Event): Entry {
    match ev
    case Failed(now) => FailSpec(l, e, now).0
    case Succeeded(_) => Entry([], Never)
    case Asked(now) => AfterLocked(e, now)
  }

  /** The entry after the first `n` events. */
  function After(l: Limits, es: seq<Event>, n: nat): Entry
    requires n <= |es|
  {
    if n == 0 then Entry([], Never) else Step(l, After(l, es, n - 1), es[n - 1])
  }

  /** Event `i` is a failure that starts a lockout: with the failures still counting against it,
      it makes `maxAttempts`. */
  predicate Triggers(l: Limits, es: seq<Event>, i: nat)
    requires i < |es|
    decreases i, 1
  {
    es[i].Failed? && Counting(l, es, i, es[i].now - l.window) + 1 >= l.maxAttempts
  }

  /** How many of the first `n` events are failures after `cutoff` that no success or lockout
      among them has wiped out. */
  function Counting(l: Limits, es: seq<Event>, n: nat, cutoff: Time): nat
    requires n <= |es|
    decreases n, 0
  {
    if n == 0 || es[n - 1].Succeeded? || Triggers(l, es, n - 1) then 0
    else Counting(l, es, n - 1, cutoff) + if es[n - 1].Failed? && es[n - 1].now > cutoff then 1 else 0
  }

  lemma {:induction false} RecentTwice(fails: seq<Time>, c: Time, c': Time)
    requires c <= c'
    ensures Recent(Recent(fails, c), c') == Recent(fails, c')
  {
    if fails == [] {
    } else {
      var n := |fails| - 1;
      RecentTwice(fails[..n], c, c');
      var r := Recent(fails[..n], c);
      assert r + [] == r && Recent(r, c') + [] == Recent(r, c');
      RecentAppend(r, fails[n], c');
    }
  }

  lemma RecentAppend(fails: seq<Time>, t: Time, c: Time)
    ensures Recent(fails + [t], c) == Recent(fails, c) + if t > c then [t] else []
  {
    assert (fails + [t])[..|fails|] == fails;
  }

  predicate Past(es: seq<Event>, n: nat, window: Time, cutoff: Time)
    requires n <= |es|
  {
    forall j | 0 <= j < n :: es[j].now - window <= cutoff
  }

  /** The pruned list still holds every failure that can matter later. */
  lemma {:induction false} PruningIsSafe(l: Limits, es: seq<Event>, n: nat, cutoff: Time)
    requires n <= |es| && ClockOk(es) && Past(es, n, l.window, cutoff)
    ensures |Recent(After(l, es, n).failures, cutoff)| == Counting(l, es, n, cutoff)
  {
    if n == 0 {
    } else {
      PruningIsSafe(l, es, n - 1, cutoff);
      if es[n - 1].Failed? {
        PruningIsSafe(l, es, n - 1, es[n - 1].now - l.window);
        PruningFailure(l, es, n - 1, cutoff);
      } else {
        PruningOther(l, es, n - 1, cutoff);
      }
    }
  }

  lemma PruningOther(l: Limits, es: seq<Event>, i: nat, cutoff: Time)
    requires i < |es| && !es[i].Failed?
    requires |Recent(After(l, es, i).failures, cutoff)| == Counting(l, es, i, cutoff)
    ensures |Recent(After(l, es, i + 1).failures, cutoff)| == Counting(l, es, i + 1, cutoff)
  {
    var e := After(l, es, i);
    assert After(l, es, i + 1) == Step(l, e, es[i]);
    assert !Triggers(l, es, i);
    assert Counting(l, es, i + 1, cutoff) == if es[i].Succeeded? then 0 else Counting(l, es, i, cutoff) + 0;
  }

  lemma CountFailure(l: Limits, es: seq<Event>, i: nat, cutoff: Time)
    requires i < |es| && es[i].Failed?
    ensures Counting(l, es, i + 1, cutoff) ==
      if Triggers(l, es, i) then 0 else Counting(l, es, i, cutoff) + if es[i].now > cutoff then 1 else 0
  {
  }

  lemma KeptCounts(fails: seq<Time>, now: Time, c: Time, cutoff: Time)
    requires c <= cutoff
    ensures |Recent(Recent(fails, c) + [now], cutoff)| == |Recent(fails, cutoff)| + if now > cutoff then 1 else 0
  {
    RecentTwice(fails, c, cutoff);
    RecentAppend(Recent(fails, c), now, cutoff);
  }

  lemma FailCounts(l: Limits, e: Entry, now: Time, cutoff: Time)
    requires now - l.window <= cutoff
    ensures |Recent(FailSpec(l, e, now).0.failures, cutoff)| ==
      if |Recent(e.failures, now - l.window)| + 1 >= l.maxAttempts then 0
      else |Recent(e.failures, cutoff)| + if now > cutoff then 1 else 0
  {
    KeptCounts(e.failures, now, now - l.window, cutoff);
  }

  lemma PruningFailure(l: Limits, es: seq<Event>, i: nat, cutoff: Time)
    requires i < |es| && es[i].Failed? && es[i].now - l.window <= cutoff
    requires var f := After(l, es, i).failures;
      && |Recent(f, cutoff)| == Counting(l, es, i, cutoff)
      && |Recent(f, es[i].now - l.window)| == Counting(l, es, i, es[i].now - l.window)
    ensures |Recent(After(l, es, i + 1).failures, cutoff)| == Counting(l, es, i + 1, cutoff)
  {
    CountFailure(l, es, i, cutoff);
    FailCounts(l, After(l, es, i), es[i].now, cutoff);
    assert After(l, es, i + 1) == FailSpec(l, After(l, es, i), es[i].now).0;
  }

  /** `Fail` answers true exactly when the failures since the last lockout or success that lie
      inside the window, counting this one, reach `maxAttempts`. */
  lemma FailAgrees(l: Limits, es: seq<Event>, i: nat)
    requires i < |es| && ClockOk(es) && es[i].Failed?
    ensures FailSpec(l, After(l, es, i), es[i].now).1 == Triggers(l, es, i)
  {
    PruningIsSafe(l, es, i, es[i].now - l.window);
  }

  lemma {:induction false} StoredBelowMax(l: Limits, es: seq<Event>, n: nat)
    requires n <= |es| && l.maxAttempts >= 1
    ensures |After(l, es, n).failures| < l.maxAttempts
  {
    if n == 0 {
    } else {
      StoredBelowMax(l, es, n - 1);
    }
  }

  /** Lockout `j` is running at `now`: it was started, has not expired, and no success came since. */
  ghost predicate LockoutRuns(l: Limits, es: seq<Event>, n: nat, j: int, now: Time)
    requires n <= |es|
  {
    && 0 <= j < n && Triggers(l, es, j) && now < es[j].now + l.lockout
    && forall k | j < k < n :: !es[k].Succeeded?
  }

  /** An event that neither starts nor clears a lockout changes none. */
  lemma LockoutsStay(l: Limits, es: seq<Event>, p: nat, now: Time)
    requires p < |es| && !es[p].Succeeded? && !Triggers(l, es, p)
    ensures var n := p + 1;
      (exists j :: LockoutRuns(l, es, n, j, now)) <==> (exists j :: LockoutRuns(l, es, p, j, now))
  {
    var n := p + 1;
    if j :| LockoutRuns(l, es, p, j, now) {
      assert LockoutRuns(l, es, n, j, now);
    }
    if j :| LockoutRuns(l, es, n, j, now) {
      assert LockoutRuns(l, es, p, j, now);
    }
  }

  lemma LockStays(l: Limits, es: seq<Event>, p: nat, now: Time)
    requires p < |es| && es[p].now <= now && !es[p].Succeeded?
    requires es[p].Failed? ==> !FailSpec(l, After(l, es, p), es[p].now).1
    ensures LockedSpec(After(l, es, p + 1), now) == LockedSpec(After(l, es, p), now)
  {
    assert After(l, es, p + 1) == Step(l, After(l, es, p), es[p]);
  }

  lemma LockStarts(l: Limits, es: seq<Event>, p: nat, now: Time)
    requires p < |es| && es[p].Failed? && Triggers(l, es, p) && FailSpec(l, After(l, es, p), es[p].now).1
    requires forall j | 0 <= j <= p :: es[j].now <= es[p].now
    ensures var n := p + 1;
      LockedSpec(After(l, es, n), now) <==> exists j :: LockoutRuns(l, es, n, j, now)
  {
    var n := p + 1;
    assert After(l, es, n) == Step(l, After(l, es, p), es[p]);
    assert LockedSpec(After(l, es, n), now) <==> now < es[p].now + l.lockout;
    if now < es[p].now + l.lockout { assert LockoutRuns(l, es, n, p, now); }
  }

  /** `Locked` holds exactly while some lockout that no success has cleared is running. */
  lemma {:induction false} LockedAgrees(l: Limits, es: seq<Event>, n: nat, now: Time)
    requires n <= |es| && ClockOk(es) && forall j | 0 <= j < n :: es[j].now <= now
    ensures LockedSpec(After(l, es, n), now) <==> exists j :: LockoutRuns(l, es, n, j, now)
  {
    if n == 0 {
    } else {
      var p := n - 1;
      LockedAgrees(l, es, p, now);
      if es[p].Failed? {
        FailAgrees(l, es, p);
      }
      if es[p].Succeeded? {
        assert After(l, es, n) == Entry([], Never);
      } else if Triggers(l, es, p) {
        LockStarts(l, es, p, now);
      } else {
        LockStays(l, es, p, now);
        LockoutsStay(l, es, p, now);
      }
    }
  }
}
