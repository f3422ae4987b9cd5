/** Cutting sequences at a separator and gluing them back, as `strings.Split`, `strings.Join`
    and `bytes.IndexByte` do. Paths, log streams, WebSocket frames and tokens all use it. */
module Text {

  /** Position of the first `x` in `s`, or `|s|` when there is none. */
  function IndexOf<T(==)>(s: seq<T>, x: T): (i: nat)
    ensures i <= |s|
    ensures i < |s| ==> s[i] == x
    ensures x !in s[..i]
    ensures forall k | 0 <= k < i :: s[k] != x
  {
    if s == [] || s[0] == x then 0 else 1 + IndexOf(s[1..], x)
  }

  /** Position of the first element of `s` with key `k`, or `|s|` when there is none. */
  function FirstWith<T>(s: seq<T>, key: T -> string, k: string): (i: nat)
    ensures i <= |s|
    ensures i < |s| ==> key(s[i]) == k
    ensures forall j | 0 <= j < i :: key(s[j]) != k
  {
    if s == [] || key(s[0]) == k then 0 else 1 + FirstWith(s[1..], key, k)
  }

  /** Pieces of `[c] + s`, from the pieces `x` of `s`. */
  function Front<T(==)>(c: T, x: seq<seq<T>>, sep: T): (r: seq<seq<T>>)
    requires |x| > 0
    ensures |r| > 0
  {
    if c == sep then [[]] + x else [[c] + x[0]] + x[1..]
  }

  /** All pieces between separators; there is always at least one piece. */
  function Split<T(==)>(s: seq<T>, sep: T): (r: seq<seq<T>>)
    ensures |r| > 0
  {
    if s == [] then [[]] else Front(s[0], Split(s[1..], sep), sep)
  }

  lemma {:induction false} PiecesPlain<T>(s: seq<T>, sep: T)
    ensures forall i | 0 <= i < |Split(s, sep)| :: sep !in Split(s, sep)[i]
  {
    if s == [] {
    } else {
      PiecesPlain(s[1..], sep);
    }
  }

  function Join<T>(parts: seq<seq<T>>, sep: T): seq<T> {
    if |parts| == 0 then []
    else if |parts| == 1 then parts[0]
    else parts[0] + [sep] + Join(parts[1..], sep)
  }

  lemma {:induction false} SplitPlain<T>(s: seq<T>, sep: T)
    requires sep !in s
    ensures Split(s, sep) == [s]
  {
    if s == [] {
    } else {
      SplitPlain(s[1..], sep);
      assert [s[0]] + s[1..] == s;
    }
  }

  /** `x` and `y` with the last piece of `x` and the first of `y` made one. */
  function Fuse<T>(x: seq<seq<T>>, y: seq<seq<T>>): (r: seq<seq<T>>)
    requires |x| > 0 && |y| > 0
    ensures |r| == |x| + |y| - 1
  {
    x[..|x| - 1] + [x[|x| - 1] + y[0]] + y[1..]
  }

  lemma FusePrepend<T>(p: seq<T>, x: seq<seq<T>>, y: seq<seq<T>>)
    requires |x| > 0 && |y| > 0
    ensures Fuse([p] + x, y) == [p] + Fuse(x, y)
  {
    var l := [p] + x;
    assert l[..|l| - 1] == [p] + x[..|x| - 1];
  }

  lemma FuseFront<T>(c: T, x: seq<seq<T>>, y: seq<seq<T>>, sep: T)
    requires |x| > 0 && |y| > 0
    ensures Fuse(Front(c, x, sep), y) == Front(c, Fuse(x, y), sep)
  {
    if c == sep {
      FusePrepend([], x, y);
    } else if |x| == 1 {
      FuseSingle([c], x[0], y);
      assert x == [x[0]];
    } else {
      var t := x[1..];
      FusePrepend([c] + x[0], t, y);
      FusePrepend(x[0], t, y);
      assert x == [x[0]] + t;
      assert ([x[0]] + Fuse(t, y))[1..] == Fuse(t, y);
    }
  }

  lemma FuseSingle<T>(a: seq<T>, b: seq<T>, y: seq<seq<T>>)
    requires |y| > 0
    ensures Fuse([a + b], y) == [a + Fuse([b], y)[0]] + Fuse([b], y)[1..]
  {
    assert (a + b) + y[0] == a + (b + y[0]);
  }

  /** Without a separator in between, the last piece of `a` and the first of `b` fuse. */
  lemma {:induction false} SplitConcat<T>(a: seq<T>, b: seq<T>, sep: T)
    ensures Split(a + b, sep) == Fuse(Split(a, sep), Split(b, sep))
  {
    if a == [] {
      assert a + b == b;
      var y := Split(b, sep);
      assert [] + y[0] == y[0];
    } else {
      SplitConcat(a[1..], b, sep);
      assert (a + b)[1..] == a[1..] + b;
      FuseFront(a[0], Split(a[1..], sep), Split(b, sep), sep);
    }
  }

  /** A separator between two texts separates their pieces. */
  lemma SplitAppend<T>(a: seq<T>, b: seq<T>, sep: T)
    ensures Split(a + [sep] + b, sep) == Split(a, sep) + Split(b, sep)
  {
    var t := [sep] + b;
    assert t[1..] == b;
    assert a + [sep] + b == a + t;
    SplitConcat(a, t, sep);
    var x := Split(a, sep);
    assert x[|x| - 1] + [] == x[|x| - 1];
  }

  /** The first separator ends the first piece. */
  lemma {:induction false} SplitFirst<T>(s: seq<T>, sep: T)
    requires IndexOf(s, sep) < |s|
    ensures var i := IndexOf(s, sep);
      Split(s, sep) == [s[..i]] + Split(s[i + 1..], sep)
  {
    var i := IndexOf(s, sep);
    if s[0] == sep {
    } else {
      SplitFirst(s[1..], sep);
      assert s[1..][i..] == s[i + 1..];
      assert [s[0]] + s[1..][..i - 1] == s[..i];
    }
  }

  /** Text after `a` only matters to the last piece of `a`. */
  lemma SplitTail<T>(a: seq<T>, b: seq<T>, sep: T)
    ensures var x := Split(a, sep);
      Split(a + b, sep) == x[..|x| - 1] + Split(x[|x| - 1] + b, sep)
  {
    var x, y := Split(a, sep), Split(b, sep);
    var last := x[|x| - 1];
    SplitConcat(a, b, sep);
    SplitConcat(last, b, sep);
    PiecesPlain(a, sep);
    SplitPlain(last, sep);
    FuseTail(x, y);
  }

  lemma FuseTail<T>(x: seq<seq<T>>, y: seq<seq<T>>)
    requires |x| > 0 && |y| > 0
    ensures Fuse(x, y) == x[..|x| - 1] + Fuse([x[|x| - 1]], y)
  {
  }

  lemma {:induction false} SplitJoin<T>(parts: seq<seq<T>>, sep: T)
    requires |parts| > 0
    requires forall i | 0 <= i < |parts| :: sep !in parts[i]
    ensures Split(Join(parts, sep), sep) == parts
  {
    SplitPlain(parts[0], sep);
    if |parts| == 1 {
    } else {
      SplitJoin(parts[1..], sep);
      SplitAppend(parts[0], Join(parts[1..], sep), sep);
    }
  }

  lemma {:induction false} JoinAppend<T>(a: seq<seq<T>>, b: seq<seq<T>>, sep: T)
    requires |a| > 0 && |b| > 0
    ensures Join(a + b, sep) == Join(a, sep) + [sep] + Join(b, sep)
  {
    if |a| == 1 {
      assert (a + b)[1..] == b;
    } else {
      JoinAppend(a[1..], b, sep);
      assert (a + b)[1..] == a[1..] + b;
    }
  }

  /** Every text is its pieces joined. */
  lemma {:induction false} JoinSplit<T>(s: seq<T>, sep: T)
    ensures Join(Split(s, sep), sep) == s
    decreases |s|
  {
    var i := IndexOf(s, sep);
    if i == |s| {
      assert s[..i] == s;
      SplitPlain(s, sep);
    } else {
      JoinSplit(s[i + 1..], sep);
      SplitFirst(s, sep);
      JoinMore(s[..i], Split(s[i + 1..], sep), sep);
      assert s == s[..i] + [sep] + s[i + 1..];
    }
  }

  lemma JoinMore<T>(p: seq<T>, t: seq<seq<T>>, sep: T)
    requires |t| > 0
    ensures Join([p] + t, sep) == p + [sep] + Join(t, sep)
  {
    assert ([p] + t)[1..] == t;
  }

  /** A text is taken apart in one way only. */
  lemma SplitIff<T>(s: seq<T>, parts: seq<seq<T>>, sep: T)
    requires |parts| > 0 && forall i | 0 <= i < |parts| :: sep !in parts[i]
    ensures Split(s, sep) == parts <==> Join(parts, sep) == s
  {
    JoinSplit(s, sep);
    SplitJoin(parts, sep);
  }
}
