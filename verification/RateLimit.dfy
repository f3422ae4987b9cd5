/** The token-bucket limiter of the HTTP layer, over real numbers. */
module RateLimit {

  datatype Bucket = Bucket(tokens: real, last: real)
  type Buckets = map<string, Bucket>

  function Min(a: real, b: real): real { if a <= b then a else b }

  /** Refill rate in tokens per second, and capacity. */
  datatype Config = Config(rate: real, burst: int)

  /** Tokens that flow in during `dt`. */
  function Refill(c: Config, dt: real): real { dt * c.rate }

  lemma RefillSum(c: Config, x: real, y: real)
    ensures Refill(c, x + y) == Refill(c, x) + Refill(c, y)
  {
  }

  lemma RefillOrder(c: Config, x: real, y: real)
    requires c.rate >= 0.0 && x <= y
    ensures Refill(c, x) <= Refill(c, y)
  {
    assert (y - x) * c.rate >= 0.0;
  }

  lemma RefillZero(c: Config)
    ensures Refill(c, 0.0) == 0.0
  {
  }

  // ----- What the two operations mean -----

  /** What is in the bucket at `now`, before the call takes anything. */
  function Available(c: Config, m: Buckets, key: string, now: real): real {
    if key in m then Min(c.burst as real, m[key].tokens + Refill(c, now - m[key].last)) else c.burst as real
  }

  function TakeSpec(c: Config, m: Buckets, key: string, n: int, now: real): (Buckets, bool) {
    var a := Available(c, m, key, now);
    if a >= n as real then (m[key := Bucket(a - n as real, now)], true) else (m[key := Bucket(a, now)], false)
  }

  function Pruned(m: Buckets, cutoff: real): Buckets {
    map k | k in m && !(m[k].last < cutoff) :: m[k]
  }

  // ----- The limiter itself -----

  class Limiter {
    const c: Config
    var buckets: Buckets

    constructor (rate: real, burst: int)
      ensures c == Config(rate, burst) && buckets == map[]
    {
      c, buckets := Config(rate, burst), map[];
    }

    method Take(key: string, n: int, now: real) returns (ok: bool)
      modifies this
      ensures (buckets, ok) == TakeSpec(c, old(buckets), key, n, now)
    {
      ghost var was := buckets;
      if key !in buckets {
        buckets := buckets[key := Bucket(c.burst as real, now)];
        RefillZero(c);
      }
      var b := buckets[key];
      var elapsed := now - b.last;
      var tokens := b.tokens + Refill(c, elapsed);
      if tokens > c.burst as real {
        tokens := c.burst as real;
      }
      assert tokens == Available(c, was, key, now);
      if tokens >= n as real {
        tokens := tokens - n as real;
        assert buckets[key := Bucket(tokens, now)] == was[key := Bucket(tokens, now)];
        buckets := buckets[key := Bucket(tokens, now)];
        return true;
      }
      assert buckets[key := Bucket(tokens, now)] == was[key := Bucket(tokens, now)];
      buckets := buckets[key := Bucket(tokens, now)];
      return false;
    }

    method Allow(key: string, now: real) returns (ok: bool)
      modifies this
      ensures (buckets, ok) == TakeSpec(c, old(buckets), key, 1, now)
    {
      ok := Take(key, 1, now);
    }

    method Cleanup(maxAge: real, now: real)
      modifies this
      ensures buckets == Pruned(old(buckets), now - maxAge)
      ensures forall k :: k in buckets <==> k in old(buckets) && now - maxAge <= old(buckets)[k].last
      ensures forall k | k in buckets :: buckets[k] == old(buckets)[k]
    {
      var cutoff := now - maxAge;
      var keys := buckets.Keys;
      ghost var all := buckets;
      while keys != {}
        invariant keys <= all.Keys
        invariant buckets == map k | k in all && (k in keys || !(all[k].last < cutoff)) :: all[k]
        decreases keys
      {
        var k :| k in keys;
        keys := keys - {k};
        if buckets[k].last < cutoff {
          buckets := buckets - {k};
        }
      }
    }
  }

  // ----- Runs -----

  datatype Event =
    | Take(key: string, n: int, now: real)
    | Cleanup(maxAge: real, now: real)

  /** The buckets after the first `j` events; with `gc` false the limiter never forgets. */
  function After(c: Config, es: seq<Event>, j: nat, gc: bool): Buckets
    requires j <= |es|
  {
    if j == 0 then map[]
    else
      var m := After(c, es, j - 1, gc);
      match es[j - 1]
      case Take(key, n, now) => TakeSpec(c, m, key, n, now).0
      case Cleanup(maxAge, now) => if gc then Pruned(m, now - maxAge) else m
  }

  /** The answer of call `i` of the run. */
  predicate Answer(c: Config, es: seq<Event>, i: nat, gc: bool)
    requires i < |es| && es[i].Take?
  {
    TakeSpec(c, After(c, es, i, gc), es[i].key, es[i].n, es[i].now).1
  }

  predicate ClockOk(es: seq<Event>) { forall i, j | 0 <= i < j < |es| :: es[i].now <= es[j].now }

  predicate NonNegative(es: seq<Event>) { forall i | 0 <= i < |es| && es[i].Take? :: es[i].n >= 0 }

  predicate IsCall(es: seq<Event>, key: string, i: int) {
    0 <= i < |es| && es[i].Take? && es[i].key == key
  }

  /** Tokens granted to `key` by the events from `i` up to, not including, `j`. */
  function Granted(c: Config, es: seq<Event>, key: string, i: nat, j: nat, gc: bool): int
    requires i <= j <= |es|
    decreases j
  {
    if i == j then 0
    else
      Granted(c, es, key, i, j - 1, gc) +
      if IsCall(es, key, j - 1) && Answer(c, es, j - 1, gc) then es[j - 1].n else 0
  }

  // ----- A bucket is a bound on every window -----

  /** What the window that opens with event `i` still leaves at time `now`, after `j` events. */
  function Room(c: Config, es: seq<Event>, key: string, i: nat, j: nat, now: real): real
    requires i <= j <= |es| && i < |es|
  {
    c.burst as real + Refill(c, now - es[i].now) - Granted(c, es, key, i, j, false) as real
  }

  /** `a` is the least room a window of `key` leaves at `now`, after `j` events. */
  ghost predicate IsLeastRoom(c: Config, es: seq<Event>, key: string, j: nat, now: real, a: real)
    requires j <= |es|
  {
    && (exists i | 0 <= i < j :: IsCall(es, key, i) && a == Room(c, es, key, i, j, now))
    && (forall i | 0 <= i < j && IsCall(es, key, i) :: a <= Room(c, es, key, i, j, now))
  }

  ghost predicate HasCall(es: seq<Event>, key: string, j: nat) {
    exists i | 0 <= i < j :: IsCall(es, key, i)
  }

  lemma RoomLater(c: Config, es: seq<Event>, key: string, j: nat, t: real, t': real, a: real)
    requires j <= |es| && IsLeastRoom(c, es, key, j, t, a)
    ensures IsLeastRoom(c, es, key, j, t', a + Refill(c, t' - t))
  {
    forall i | 0 <= i < j && IsCall(es, key, i)
      ensures Room(c, es, key, i, j, t') == Room(c, es, key, i, j, t) + Refill(c, t' - t)
    {
      RefillSum(c, t - es[i].now, t' - t);
    }
  }

  /** Min-plus reading of the bucket: its level is the least room over all windows. */
  lemma {:induction false} BucketIsLeastRoom(c: Config, es: seq<Event>, key: string, j: nat)
    requires j <= |es|
    ensures key in After(c, es, j, false) <==> HasCall(es, key, j)
    ensures var m := After(c, es, j, false);
      key in m ==> IsLeastRoom(c, es, key, j, m[key].last, m[key].tokens)
  {
    if j == 0 {
    } else {
      BucketIsLeastRoom(c, es, key, j - 1);
      var m, m' := After(c, es, j - 1, false), After(c, es, j, false);
      if IsCall(es, key, j - 1) {
        LeastRoomAtCall(c, es, key, j - 1);
        LeastRoomAfterCall(c, es, key, j - 1);
      } else if key in m {
        var w :| 0 <= w < j - 1 && IsCall(es, key, w) && m[key].tokens == Room(c, es, key, w, j - 1, m[key].last);
        assert m'[key] == m[key];
        assert m[key].tokens == Room(c, es, key, w, j, m[key].last);
      }
    }
  }

  /** Before a call takes anything, its bucket holds the least room over the earlier windows and
      the window it opens itself. */
  lemma LeastRoomAtCall(c: Config, es: seq<Event>, key: string, j: nat)
    requires IsCall(es, key, j)
    requires key in After(c, es, j, false) <==> HasCall(es, key, j)
    requires var m := After(c, es, j, false);
      key in m ==> IsLeastRoom(c, es, key, j, m[key].last, m[key].tokens)
    ensures var a := Available(c, After(c, es, j, false), key, es[j].now);
      && (exists i | 0 <= i <= j :: IsCall(es, key, i) && a == Room(c, es, key, i, j, es[j].now))
      && (forall i | 0 <= i <= j && IsCall(es, key, i) :: a <= Room(c, es, key, i, j, es[j].now))
  {
    var m, t := After(c, es, j, false), es[j].now;
    assert Room(c, es, key, j, j, t) == c.burst as real by { RefillZero(c); }
    if key in m {
      RoomLater(c, es, key, j, m[key].last, t, m[key].tokens);
      assert IsLeastRoom(c, es, key, j, t, m[key].tokens + Refill(c, t - m[key].last));
    }
  }

  lemma LeastRoomAfterCall(c: Config, es: seq<Event>, key: string, j: nat)
    requires IsCall(es, key, j)
    requires var a := Available(c, After(c, es, j, false), key, es[j].now);
      && (exists i | 0 <= i <= j :: IsCall(es, key, i) && a == Room(c, es, key, i, j, es[j].now))
      && (forall i | 0 <= i <= j && IsCall(es, key, i) :: a <= Room(c, es, key, i, j, es[j].now))
    ensures var m := After(c, es, j + 1, false);
      key in m && IsLeastRoom(c, es, key, j + 1, m[key].last, m[key].tokens)
  {
    var m, t := After(c, es, j + 1, false), es[j].now;
    var a := Available(c, After(c, es, j, false), key, t);
    var g := if Answer(c, es, j, false) then es[j].n else 0;
    assert m[key] == Bucket(a - g as real, t);
    forall i | 0 <= i <= j && IsCall(es, key, i)
      ensures Room(c, es, key, i, j + 1, t) == Room(c, es, key, i, j, t) - g as real
    {
    }
  }

  /** With call `j`, the grants since call `i` stay within burst plus rate times elapsed time. */
  predicate Fits(c: Config, es: seq<Event>, i: nat, j: nat)
    requires i <= j < |es| && es[j].Take?
  {
    (Granted(c, es, es[j].key, i, j, false) + es[j].n) as real <= c.burst as real + Refill(c, es[j].now - es[i].now)
  }

  lemma FitsIsRoom(c: Config, es: seq<Event>, i: nat, j: nat)
    requires i <= j < |es| && es[j].Take?
    ensures Fits(c, es, i, j) <==> es[j].n as real <= Room(c, es, es[j].key, i, j, es[j].now)
  {
    var g := Granted(c, es, es[j].key, i, j, false);
    assert (g + es[j].n) as real == g as real + es[j].n as real;
  }

  /** A call is granted exactly when it fits every window that ends with it, from each earlier
      call of its key and from itself. */
  lemma GrantedExactly(c: Config, es: seq<Event>, j: nat)
    requires j < |es| && es[j].Take?
    ensures Answer(c, es, j, false) <==> forall i | 0 <= i <= j && IsCall(es, es[j].key, i) :: Fits(c, es, i, j)
  {
    var key, t := es[j].key, es[j].now;
    BucketIsLeastRoom(c, es, key, j);
    LeastRoomAtCall(c, es, key, j);
    var a := Available(c, After(c, es, j, false), key, t);
    var w :| 0 <= w <= j && IsCall(es, key, w) && a == Room(c, es, key, w, j, t);
    FitsIsRoom(c, es, w, j);
    forall i | 0 <= i <= j && IsCall(es, key, i) ensures Answer(c, es, j, false) ==> Fits(c, es, i, j) {
      FitsIsRoom(c, es, i, j);
      assert a <= Room(c, es, key, i, j, t);
    }
  }

  lemma {:induction false} LevelsOk(c: Config, es: seq<Event>, j: nat, gc: bool)
    requires j <= |es| && ClockOk(es) && NonNegative(es) && c.rate >= 0.0 && c.burst >= 0
    ensures forall k | k in After(c, es, j, gc) ::
      && 0.0 <= After(c, es, j, gc)[k].tokens
      && (j < |es| ==> After(c, es, j, gc)[k].last <= es[j].now)
      && (j > 0 ==> After(c, es, j, gc)[k].last <= es[j - 1].now)
  {
    if j == 0 {
    } else {
      LevelsOk(c, es, j - 1, gc);
      if es[j - 1].Take? {
        var m, key, now := After(c, es, j - 1, gc), es[j - 1].key, es[j - 1].now;
        if key in m {
          RefillZero(c);
          RefillOrder(c, 0.0, now - m[key].last);
        }
      }
    }
  }

  /** No window of a run grants more than the burst plus the rate times its length. */
  lemma WindowBound(c: Config, es: seq<Event>, key: string, i: nat, j: nat)
    requires ClockOk(es) && NonNegative(es) && c.rate >= 0.0 && c.burst >= 0
    requires i <= j && IsCall(es, key, i) && IsCall(es, key, j)
    ensures Granted(c, es, key, i, j + 1, false) as real <= c.burst as real + Refill(c, es[j].now - es[i].now)
  {
    BucketIsLeastRoom(c, es, key, j + 1);
    LevelsOk(c, es, j + 1, false);
    var m := After(c, es, j + 1, false);
    assert m[key].last == es[j].now;
    assert m[key].tokens <= Room(c, es, key, i, j + 1, es[j].now);
  }

  // ----- Forgetting idle buckets -----

  ghost predicate Forgets(c: Config, m: Buckets, full: Buckets, now: real) {
    && (forall k | k in m :: k in full && m[k] == full[k])
    && (forall k | k in full && k !in m :: full[k].tokens + Refill(c, now - full[k].last) >= c.burst as real)
  }

  predicate OldEnough(c: Config, es: seq<Event>) {
    forall i | 0 <= i < |es| && es[i].Cleanup? :: Refill(c, es[i].maxAge) >= c.burst as real
  }

  lemma ForgetsLater(c: Config, m: Buckets, full: Buckets, t: real, t': real)
    requires Forgets(c, m, full, t) && t <= t' && c.rate >= 0.0
    ensures Forgets(c, m, full, t')
  {
    forall k | k in full && k !in m ensures full[k].tokens + Refill(c, t' - full[k].last) >= c.burst as real {
      RefillOrder(c, t - full[k].last, t' - full[k].last);
    }
  }

  lemma ForgetsPruned(c: Config, m: Buckets, full: Buckets, maxAge: real, now: real)
    requires Forgets(c, m, full, now) && c.rate >= 0.0 && Refill(c, maxAge) >= c.burst as real
    requires forall k | k in full :: full[k].tokens >= 0.0
    ensures Forgets(c, Pruned(m, now - maxAge), full, now)
  {
    forall k | k in m && m[k].last < now - maxAge
      ensures full[k].tokens + Refill(c, now - full[k].last) >= c.burst as real
    {
      RefillOrder(c, maxAge, now - full[k].last);
    }
  }

  lemma {:induction false} ForgetsAll(c: Config, es: seq<Event>, j: nat)
    requires j <= |es| && ClockOk(es) && NonNegative(es) && OldEnough(c, es) && c.rate >= 0.0 && c.burst >= 0
    ensures j > 0 ==> Forgets(c, After(c, es, j, true), After(c, es, j, false), es[j - 1].now)
  {
    if j == 0 {
    } else {
      ForgetsAll(c, es, j - 1);
      LevelsOk(c, es, j - 1, false);
      var m, full, now := After(c, es, j - 1, true), After(c, es, j - 1, false), es[j - 1].now;
      assert Forgets(c, m, full, now) by {
        if j > 1 { ForgetsLater(c, m, full, es[j - 2].now, now); }
      }
      match es[j - 1]
      case Take(key, n, _) =>
        assert Available(c, m, key, now) == Available(c, full, key, now);
      case Cleanup(maxAge, _) => ForgetsPruned(c, m, full, maxAge, now);
    }
  }

  /** With `maxAge * rate >= burst`, cleaning up anywhere in a run changes no answer. */
  lemma CleanupUnseen(c: Config, es: seq<Event>, i: nat)
    requires ClockOk(es) && NonNegative(es) && OldEnough(c, es) && c.rate >= 0.0 && c.burst >= 0
    requires i < |es| && es[i].Take?
    ensures Answer(c, es, i, true) == Answer(c, es, i, false)
  {
    ForgetsAll(c, es, i);
    var m, full := After(c, es, i, true), After(c, es, i, false);
    if i > 0 {
      ForgetsLater(c, m, full, es[i - 1].now, es[i].now);
    }
    assert Available(c, m, es[i].key, es[i].now) == Available(c, full, es[i].key, es[i].now);
  }

  /** A moment after `maxAge` at which a bucket emptied at 0 is not full again. */
  ghost function TooSoon(c: Config, maxAge: real): (t: real)
    requires c.rate >= 0.0 && c.burst >= 1 && Refill(c, maxAge) < c.burst as real
    ensures t >= 0.0 && t > maxAge && Refill(c, t) < c.burst as real
  {
    if maxAge < 0.0 then 0.0
    else if c.rate == 0.0 then maxAge + 1.0
    else
      var d := (c.burst as real - maxAge * c.rate) / (2.0 * c.rate);
      assert d * c.rate == (c.burst as real - maxAge * c.rate) / 2.0;
      assert (maxAge + d) * c.rate == maxAge * c.rate + d * c.rate;
      assert d > 0.0;
      maxAge + d
  }

  /** ... and with less than that, some run tells the difference. */
  lemma CleanupSeen(c: Config, maxAge: real) returns (es: seq<Event>)
    requires c.rate >= 0.0 && c.burst >= 1 && Refill(c, maxAge) < c.burst as real
    ensures |es| == 3 && es[0].Take? && es[1] == Cleanup(maxAge, es[2].now) && es[2].Take?
    ensures ClockOk(es) && NonNegative(es)
    ensures Answer(c, es, 2, true) != Answer(c, es, 2, false)
  {
    var t := TooSoon(c, maxAge);
    es := [Take("a", c.burst, 0.0), Cleanup(maxAge, t), Take("a", c.burst, t)];
    var m1 := After(c, es, 1, true);
    assert After(c, es, 0, true) == map[] && After(c, es, 0, false) == map[];
    assert m1 == map["a" := Bucket(0.0, 0.0)] && After(c, es, 1, false) == m1;
    assert After(c, es, 2, true) == Pruned(m1, t - maxAge);
    assert "a" !in After(c, es, 2, true);
    assert After(c, es, 2, false) == m1;
    assert Available(c, m1, "a", t) == Min(c.burst as real, 0.0 + Refill(c, t - 0.0));
  }

  /** `Cleanup(maxAge)` is invisible exactly when a bucket fills up within `maxAge`. */
  lemma CleanupInvisibleIff(c: Config, maxAge: real)
    requires c.rate >= 0.0 && c.burst >= 1
    ensures Refill(c, maxAge) >= c.burst as real <==>
      forall es: seq<Event>, i: nat |
        ClockOk(es) && NonNegative(es) && i < |es| && es[i].Take?
        && (forall k | 0 <= k < |es| && es[k].Cleanup? :: es[k].maxAge == maxAge) ::
        Answer(c, es, i, true) == Answer(c, es, i, false)
  {
    if Refill(c, maxAge) >= c.burst as real {
      forall es: seq<Event>, i: nat |
        ClockOk(es) && NonNegative(es) && i < |es| && es[i].Take?
        && (forall k | 0 <= k < |es| && es[k].Cleanup? :: es[k].maxAge == maxAge)
        ensures Answer(c, es, i, true) == Answer(c, es, i, false)
      {
        CleanupUnseen(c, es, i);
      }
    } else {
      var es := CleanupSeen(c, maxAge);
      assert forall k | 0 <= k < |es| && es[k].Cleanup? :: es[k].maxAge == maxAge;
    }
  }
}
