/** Confinement of paths to the allow-listed roots: lexical cleaning, string-prefix containment,
    and resolution of the nearest existing ancestor through links. */
module PathConfine {
  import opened Text

  /** A clean absolute path, as its components; the root directory is []. */
  type Path = seq<string>

  predicate Named(n: string) { n != "" && '/' !in n && n != "." && n != ".." }

  predicate CleanPath(p: Path) { forall i | 0 <= i < |p| :: Named(p[i]) }

  function Render(p: Path): string { if p == [] then "/" else "/" + Join(p, '/') }

  // ----- filepath.Clean on absolute paths -----

  /** The components left of `parts`, walked from the directory `at`. */
  function Walk(at: Path, parts: seq<string>): Path
    decreases |parts|
  {
    if parts == [] then at
    else if parts[0] == "" || parts[0] == "." then Walk(at, parts[1..])
    else if parts[0] == ".." then Walk(if at == [] then [] else at[..|at| - 1], parts[1..])
    else Walk(at + [parts[0]], parts[1..])
  }

  function Components(s: string): Path { Walk([], Split(s, '/')) }

  function Clean(s: string): string { Render(Components(s)) }

  predicate IsAbs(s: string) { s != "" && s[0] == '/' }

  lemma {:induction false} WalkClean(at: Path, parts: seq<string>)
    requires CleanPath(at) && forall i | 0 <= i < |parts| :: '/' !in parts[i]
    ensures CleanPath(Walk(at, parts))
    decreases |parts|
  {
    if parts == [] {
    } else {
      if parts[0] == "" || parts[0] == "." { WalkClean(at, parts[1..]); }
      else if parts[0] == ".." { WalkClean(if at == [] then [] else at[..|at| - 1], parts[1..]); }
      else { WalkClean(at + [parts[0]], parts[1..]); }
    }
  }

  lemma ComponentsClean(s: string)
    ensures CleanPath(Components(s))
  {
    PiecesPlain(s, '/');
    WalkClean([], Split(s, '/'));
  }

  lemma {:induction false} WalkNames(at: Path, p: Path)
    requires CleanPath(p)
    ensures Walk(at, p) == at + p
    decreases |p|
  {
    if p != [] {
      WalkNames(at + [p[0]], p[1..]);
      assert at + [p[0]] + p[1..] == at + p;
    } else {
      assert at + p == at;
    }
  }

  lemma SplitRender(p: Path)
    requires CleanPath(p)
    ensures Split(Render(p), '/') == if p == [] then ["", ""] else [""] + p
  {
    if p == [] {
      assert "/"[1..] == "";
      assert Split("", '/') == [""];
    } else {
      SplitJoin(p, '/');
      assert Render(p)[1..] == Join(p, '/');
    }
  }

  /** Rendering and cleaning undo each other, so a clean path stays as it is. */
  lemma ComponentsRender(p: Path)
    requires CleanPath(p)
    ensures Components(Render(p)) == p && Clean(Render(p)) == Render(p) && IsAbs(Render(p))
  {
    SplitRender(p);
    if p == [] {
      assert ["", ""][1..] == [""] && [""][1..] == [];
    } else {
      assert ([""] + p)[1..] == p;
      WalkNames([], p);
    }
  }

  lemma CleanTwice(s: string)
    ensures Clean(Clean(s)) == Clean(s)
  {
    ComponentsClean(s);
    ComponentsRender(Components(s));
  }

  lemma {:induction false} WalkAppend(at: Path, a: seq<string>, b: seq<string>)
    ensures Walk(at, a + b) == Walk(Walk(at, a), b)
    decreases |a|
  {
    if a == [] {
      assert a + b == b;
    } else {
      assert (a + b)[1..] == a[1..] + b;
      if a[0] == "" || a[0] == "." { WalkAppend(at, a[1..], b); }
      else if a[0] == ".." { WalkAppend(if at == [] then [] else at[..|at| - 1], a[1..], b); }
      else { WalkAppend(at + [a[0]], a[1..], b); }
    }
  }

  lemma OnePieceMore(s: string, c: string)
    requires '/' !in c
    ensures Components(s + ['/'] + c) == Walk(Components(s), [c])
  {
    SplitAppend(s, c, '/');
    SplitPlain(c, '/');
    WalkAppend([], Split(s, '/'), [c]);
  }

  /** What cleaning makes of one more piece, after any text: ".." leads to the parent, and stays at
      the root; "." and nothing lead nowhere; and a name leads there. */
  lemma CleaningLaws(s: string, c: string)
    ensures Components("/") == []
    ensures Components(s + "/..") == if Components(s) == [] then [] else Components(s)[..|Components(s)| - 1]
    ensures Components(s + "/.") == Components(s) && Components(s + "/") == Components(s)
    ensures Named(c) ==> Components(s + "/" + c) == Components(s) + [c]
  {
    ComponentsRender([]);
    assert s + "/.." == s + ['/'] + ".." && s + "/." == s + ['/'] + "." && s + "/" == s + ['/'] + "";
    assert [".."][1..] == [] && ["."][1..] == [] && [""][1..] == [] && [c][1..] == [];
    OnePieceMore(s, "..");
    OnePieceMore(s, ".");
    OnePieceMore(s, "");
    if Named(c) {
      assert s + "/" + c == s + ['/'] + c;
      OnePieceMore(s, c);
    }
  }

  // ----- Containment -----

  predicate Contains(root: string, path: string) {
    path == root || (root + "/") <= path
  }

  predicate WithinRoots(roots: seq<string>, path: string) {
    exists i | 0 <= i < |roots| :: Contains(roots[i], Clean(path))
  }

  lemma LongerRender(r: Path, t: Path)
    requires r != [] && t != []
    ensures Render(r + t) == Render(r) + ['/'] + Join(t, '/')
  {
    JoinAppend(r, t, '/');
  }

  lemma BelowIsPrefix(r: Path, p: Path, z: string)
    requires CleanPath(r) && CleanPath(p) && r != []
    requires Render(p) == Render(r) + ['/'] + z
    ensures r <= p
  {
    SplitRender(r);
    SplitRender(p);
    var zs := Split(z, '/');
    SplitAppend(Render(r), z, '/');
    assert p != [];
    DropHead("", r, zs, p);
  }

  lemma DropHead(h: string, r: Path, zs: seq<string>, p: Path)
    requires [h] + p == ([h] + r) + zs
    ensures r <= p
  {
    assert |p| == |r| + |zs|;
    forall i | 0 <= i < |r| ensures p[i] == r[i] {
      assert ([h] + p)[i + 1] == (([h] + r) + zs)[i + 1];
    }
  }

  lemma SameRender(r: Path, p: Path)
    requires CleanPath(r) && CleanPath(p) && Render(r) == Render(p)
    ensures r == p
  {
    ComponentsRender(r);
    ComponentsRender(p);
  }

  lemma NoDoubleSlash(p: Path)
    requires CleanPath(p)
    ensures !("//" <= Render(p))
  {
    if p != [] {
      assert Named(p[0]) && p[0][0] in p[0];
      assert Join(p, '/')[0] == p[0][0];
      assert Render(p)[1] == p[0][0];
    }
  }

  /** The string test means exactly containment by components, except that with the root directory
      as a root it lets nothing through but the root directory. */
  lemma ContainsIff(r: Path, p: Path)
    requires CleanPath(r) && CleanPath(p)
    ensures Contains(Render(r), Render(p)) <==> if r == [] then p == [] else r <= p
  {
    var rs, ps := Render(r), Render(p);
    if ps == rs { SameRender(r, p); }
    if r == [] {
      NoDoubleSlash(p);
      assert rs + "/" == "//";
    } else {
      if rs + "/" <= ps {
        assert ps == rs + ['/'] + ps[|rs| + 1..];
        BelowIsPrefix(r, p, ps[|rs| + 1..]);
      }
      if r < p {
        assert p == r + p[|r|..];
        LongerRender(r, p[|r|..]);
        assert rs + "/" == rs + ['/'];
      } else if r <= p {
        assert r == p;
      }
    }
  }

  // ----- Links -----

  /** What `EvalSymlinks` answers. */
  datatype Eval = Found(path: Path) | Missing | Failed

  type Resolver = Path -> Eval

  /** What `c` names in the directory `p`. */
  function Child(p: Path, c: string): Path { p + [c] }

  /** What is required of the file tree behind `EvalSymlinks`: a real path is its own real path;
      what lies in a directory depends only on which directory it really is; and nothing lies in
      a directory that is not there. */
  ghost predicate IsResolver(realpath: Resolver) {
    && (forall p | CleanPath(p) && realpath(p).Found? ::
          CleanPath(realpath(p).path) && realpath(realpath(p).path) == realpath(p))
    && (forall p, c | CleanPath(p) && Named(c) && realpath(p).Found? ::
          realpath(Child(p, c)) == realpath(Child(realpath(p).path, c)))
    && (forall p, c | CleanPath(p) && Named(c) && realpath(p).Missing? :: realpath(Child(p, c)) == Missing)
  }

  datatype Ancestor = At(resolved: Path, rest: Path) | NoAncestor

  /** The nearest existing ancestor of `p`, really, and what lies below it. */
  function NearestAncestor(realpath: Resolver, p: Path, rest: Path): Ancestor
    decreases |p|
  {
    match realpath(p)
    case Found(r) => At(r, rest)
    case Failed => NoAncestor
    case Missing =>
      if p == [] then NoAncestor else NearestAncestor(realpath, p[..|p| - 1], [p[|p| - 1]] + rest)
  }

  /** resolveAncestor: at every turn `eval` joined with `rest` is the path asked for. */
  method ResolveAncestor(realpath: Resolver, p: Path) returns (a: Ancestor)
    ensures a == NearestAncestor(realpath, p, [])
    ensures a.At? ==> exists k | 0 <= k <= |p| ::
      && a.rest == p[k..] && realpath(p[..k]) == Found(a.resolved)
      && forall j | k < j <= |p| :: realpath(p[..j]) == Missing
  {
    var eval, rest := p, [];
    assert p[..|p|] == p;
    while true
      invariant eval + rest == p
      invariant NearestAncestor(realpath, p, []) == NearestAncestor(realpath, eval, rest)
      invariant forall j | |eval| < j <= |p| :: realpath(p[..j]) == Missing
      decreases |eval|
    {
      assert p[..|eval|] == eval && p[|eval|..] == rest;
      match realpath(eval)
      case Found(r) => return At(r, rest);
      case Failed => return NoAncestor;
      case Missing =>
        if eval == [] {
          return NoAncestor;
        }
        var n := |eval| - 1;
        rest := [eval[n]] + rest;
        eval := eval[..n];
    }
  }

  // ----- Resolve -----

  datatype Resolved = Ok(path: string) | Forbidden | IoError

  /** Is the last component of the path a hidden name? */
  predicate HiddenBase(path: string) {
    var p := Components(path);
    p != [] && p[|p| - 1] != "" && p[|p| - 1][0] == '.' && p[|p| - 1] != "." && p[|p| - 1] != ".."
  }

  datatype Manager = Manager(roots: seq<string>, hidden: bool) {
    /** What `New` leaves: at least one root, each absolute and clean. */
    ghost predicate Valid() {
      |roots| > 0 && forall i | 0 <= i < |roots| :: IsAbs(roots[i]) && Clean(roots[i]) == roots[i]
    }

    /** The lexical part: the cleaned absolute path meant by `p`. */
    function Absolute(p: string): string
      requires |roots| > 0
    {
      if p == "" then Clean(roots[0])
      else if IsAbs(p) then Clean(p)
      else Clean(roots[0] + "/" + p)
    }

    function ResolveSpec(realpath: Resolver, p: string): Resolved
      requires Valid()
    {
      var path := Absolute(p);
      if !WithinRoots(roots, path) then Forbidden
      else if !hidden && HiddenBase(path) then Forbidden
      else
        match NearestAncestor(realpath, Components(path), [])
        case NoAncestor => IoError
        case At(resolved, rest) =>
          var full := Render(resolved + rest);
          if WithinRoots(roots, full) then Ok(full) else Forbidden
    }

    method Resolve(realpath: Resolver, p: string) returns (r: Resolved)
      requires Valid()
      ensures r == ResolveSpec(realpath, p)
    {
      var path := p;
      if path == "" {
        path := roots[0];
      }
      if !IsAbs(path) {
        path := Clean(roots[0] + "/" + path);
        CleanTwice(roots[0] + "/" + p);
      }
      path := Clean(path);
      if !WithinRoots(roots, path) {
        return Forbidden;
      }
      if !hidden && HiddenBase(path) {
        return Forbidden;
      }
      var a := ResolveAncestor(realpath, Components(path));
      match a
      case NoAncestor => return IoError;
      case At(resolved, rest) =>
        var full := Render(resolved + rest);
        if !WithinRoots(roots, full) {
          return Forbidden;
        }
        return Ok(full);
    }
  }

  lemma {:induction false} AncestorIsReal(realpath: Resolver, p: Path, rest: Path)
    requires IsResolver(realpath) && CleanPath(p) && CleanPath(rest)
    requires rest != [] ==> realpath(Child(p, rest[0])) == Missing
    ensures var a := NearestAncestor(realpath, p, rest);
      a.At? ==>
        && CleanPath(a.resolved) && CleanPath(a.rest)
        && realpath(a.resolved) == Found(a.resolved)
        && (a.rest != [] ==> realpath(Child(a.resolved, a.rest[0])) == Missing)
    decreases |p|
  {
    match realpath(p)
    case Found(r) =>
      if rest != [] { assert Named(rest[0]); }
    case Failed =>
    case Missing =>
      if p != [] {
        var n := |p| - 1;
        assert Child(p[..n], p[n]) == p;
        AncestorIsReal(realpath, p[..n], [p[n]] + rest);
      }
  }

  lemma {:induction false} NothingBelowMissing(realpath: Resolver, r: Path, rest: Path, k: nat)
    requires IsResolver(realpath) && CleanPath(r) && CleanPath(rest) && 0 < k <= |rest|
    requires realpath(Child(r, rest[0])) == Missing
    ensures realpath(r + rest[..k]) == Missing
  {
    if k == 1 {
      assert r + rest[..1] == Child(r, rest[0]);
    } else {
      NothingBelowMissing(realpath, r, rest, k - 1);
      OneDown(r, rest, k);
      CleanConcat(r, rest[..k - 1]);
    }
  }

  lemma OneDown(r: Path, rest: Path, k: nat)
    requires 0 < k <= |rest|
    ensures r + rest[..k] == Child(r + rest[..k - 1], rest[k - 1])
  {
  }

  /** Searching again from a resolved path finds the same ancestor at once. */
  lemma {:induction false} SearchAgain(realpath: Resolver, r: Path, rest: Path, k: nat)
    requires IsResolver(realpath) && CleanPath(r) && CleanPath(rest) && k <= |rest|
    requires realpath(r) == Found(r) && (rest != [] ==> realpath(Child(r, rest[0])) == Missing)
    ensures NearestAncestor(realpath, r + rest[..k], rest[k..]) == At(r, rest)
    decreases k
  {
    if k == 0 {
      assert r + rest[..0] == r && rest[0..] == rest;
    } else {
      SearchAgain(realpath, r, rest, k - 1);
      NothingBelowMissing(realpath, r, rest, k);
      OneUp(realpath, r, rest, k);
    }
  }

  lemma OneUp(realpath: Resolver, r: Path, rest: Path, k: nat)
    requires 0 < k <= |rest| && realpath(r + rest[..k]) == Missing
    ensures NearestAncestor(realpath, r + rest[..k], rest[k..])
         == NearestAncestor(realpath, r + rest[..k - 1], rest[k - 1..])
  {
    StepUp(r, rest, k);
  }

  lemma StepUp(r: Path, rest: Path, k: nat)
    requires 0 < k <= |rest|
    ensures var p := r + rest[..k];
      p[..|p| - 1] == r + rest[..k - 1] && [p[|p| - 1]] + rest[k..] == rest[k - 1..]
  {
  }

  // ----- What Resolve guarantees -----

  lemma CleanConcat(a: Path, b: Path)
    requires CleanPath(a) && CleanPath(b)
    ensures CleanPath(a + b)
  {
  }

  /** The path meant by what a caller asks for: as it stands, or from the first root. */
  function Asked(m: Manager, p: string): Path
    requires |m.roots| > 0
  {
    Components(if IsAbs(p) then p else m.roots[0] + "/" + p)
  }

  lemma AbsoluteIsAsked(m: Manager, p: string)
    requires m.Valid()
    ensures m.Absolute(p) == Render(Asked(m, p)) && Components(m.Absolute(p)) == Asked(m, p)
    ensures CleanPath(Asked(m, p))
  {
    ComponentsClean(if IsAbs(p) then p else m.roots[0] + "/" + p);
    ComponentsRender(Asked(m, p));
    if p == "" {
      CleaningLaws(m.roots[0], "");
      assert m.roots[0] + "/" + p == m.roots[0] + "/";
    }
  }

  /** In a root by components; the root directory holds itself only. */
  ghost predicate InRoots(m: Manager, c: Path) {
    exists i | 0 <= i < |m.roots| ::
      var r := Components(m.roots[i]);
      if r == [] then c == [] else r <= c
  }

  lemma WithinIff(m: Manager, c: Path)
    requires m.Valid() && CleanPath(c)
    ensures WithinRoots(m.roots, Render(c)) <==> InRoots(m, c)
  {
    ComponentsRender(c);
    forall i | 0 <= i < |m.roots|
      ensures Contains(m.roots[i], Clean(Render(c))) <==>
        var r := Components(m.roots[i]); if r == [] then c == [] else r <= c
    {
      ComponentsClean(m.roots[i]);
      assert m.roots[i] == Render(Components(m.roots[i]));
      ContainsIff(Components(m.roots[i]), c);
    }
  }

  /** The name is one that is not shown: it begins with a dot. */
  predicate HiddenName(c: Path) { c != [] && ['.'] <= c[|c| - 1] }

  lemma HiddenIff(path: string)
    ensures HiddenBase(path) <==> HiddenName(Components(path))
  {
    ComponentsClean(path);
    var c := Components(path);
    if c != [] { assert Named(c[|c| - 1]); }
  }

  /** The first `k` names of `c` are the longest part of it that exists, and really are `r`. */
  ghost predicate ExistsUpTo(realpath: Resolver, c: Path, k: nat, r: Path) {
    && k <= |c|
    && realpath(c[..k]) == Found(r)
    && forall j | k < j <= |c| :: realpath(c[..j]) == Missing
  }

  lemma {:induction false} AncestorIff(realpath: Resolver, c: Path, l: nat)
    requires l <= |c| && forall j | l < j <= |c| :: realpath(c[..j]) == Missing
    ensures var a := NearestAncestor(realpath, c[..l], c[l..]);
      if a.At? then exists k: nat :: ExistsUpTo(realpath, c, k, a.resolved) && a.rest == c[k..]
      else forall k: nat, r: Path :: !ExistsUpTo(realpath, c, k, r)
    decreases l
  {
    if realpath(c[..l]).Found? {
      assert ExistsUpTo(realpath, c, l, realpath(c[..l]).path);
    } else if realpath(c[..l]).Missing? && l > 0 {
      assert c[..l][..l - 1] == c[..l - 1] && [c[l - 1]] + c[l..] == c[l - 1..];
      AncestorIff(realpath, c, l - 1);
    } else {
      forall k: nat, r: Path ensures !ExistsUpTo(realpath, c, k, r) {
      }
    }
  }

  /** The path asked for is in a root, and it is shown. */
  ghost predicate Admitted(m: Manager, c: Path) { InRoots(m, c) && (m.hidden || !HiddenName(c)) }

  /** What is answered, in all cases: a path outside the roots or ending in a hidden name is
      forbidden as it stands. Of another the longest part that exists is replaced by what it really
      is, which is the answer if it still lies in a root, and forbidden if not; and where no part of
      it can be found there is an error. */
  lemma ResolveIff(m: Manager, realpath: Resolver, p: string)
    requires m.Valid() && IsResolver(realpath)
    ensures var c, answer := Asked(m, p), m.ResolveSpec(realpath, p);
      && (!Admitted(m, c) ==> answer == Forbidden)
      && (Admitted(m, c) ==>
            && (forall k: nat, r: Path | ExistsUpTo(realpath, c, k, r) ::
                  answer == if InRoots(m, r + c[k..]) then Ok(Render(r + c[k..])) else Forbidden)
            && (answer == IoError <==> forall k: nat, r: Path :: !ExistsUpTo(realpath, c, k, r)))
  {
    var c := Asked(m, p);
    AbsoluteIsAsked(m, p);
    WithinIff(m, c);
    HiddenIff(m.Absolute(p));
    assert c[..|c|] == c && c[|c|..] == [];
    AncestorIff(realpath, c, |c|);
    var a := NearestAncestor(realpath, c, []);
    if a.At? {
      AncestorIsReal(realpath, c, []);
      CleanConcat(a.resolved, a.rest);
      WithinIff(m, a.resolved + a.rest);
      forall k: nat, r: Path | ExistsUpTo(realpath, c, k, r) ensures a == At(r, c[k..]) {
        var k': nat :| ExistsUpTo(realpath, c, k', a.resolved) && a.rest == c[k'..];
        assert k == k';
      }
    }
  }

  /** The answer depends only on the path asked for: one more ".." asks for the parent. */
  lemma DotDotResolves(m: Manager, realpath: Resolver, s: string)
    requires m.Valid() && IsAbs(s)
    ensures var c := Components(s);
      m.ResolveSpec(realpath, s + "/..") == m.ResolveSpec(realpath, Render(if c == [] then [] else c[..|c| - 1]))
  {
    var c := Components(s);
    var up := if c == [] then [] else c[..|c| - 1];
    CleaningLaws(s, "");
    ComponentsClean(s);
    ComponentsRender(up);
    AbsoluteIsAsked(m, s + "/..");
    AbsoluteIsAsked(m, Render(up));
  }

  /** An accepted path is clean and, if no root is the root directory, lies in a root by
      components; what is there of it is its own real path, and the rest is missing. */
  lemma Confined(m: Manager, realpath: Resolver, p: string)
    requires m.Valid() && IsResolver(realpath) && m.ResolveSpec(realpath, p).Ok?
    requires forall i | 0 <= i < |m.roots| :: m.roots[i] != "/"
    ensures var full := m.ResolveSpec(realpath, p).path;
      && Clean(full) == full
      && (exists i | 0 <= i < |m.roots| :: Components(m.roots[i]) <= Components(full))
      && exists k | 0 <= k <= |Components(full)| ::
           && realpath(Components(full)[..k]) == Found(Components(full)[..k])
           && forall j | k < j <= |Components(full)| :: realpath(Components(full)[..j]) == Missing
  {
    var a := AcceptedParts(m, realpath, p);
    var full := a.resolved + a.rest;
    ComponentsRender(full);
    WithinByComponents(m, full);
    RealPart(realpath, a.resolved, a.rest);
  }

  lemma WithinByComponents(m: Manager, p: Path)
    requires m.Valid() && CleanPath(p) && WithinRoots(m.roots, Render(p))
    requires forall i | 0 <= i < |m.roots| :: m.roots[i] != "/"
    ensures exists i | 0 <= i < |m.roots| :: Components(m.roots[i]) <= p
  {
    ComponentsRender(p);
    var i :| 0 <= i < |m.roots| && Contains(m.roots[i], Clean(Render(p)));
    ComponentsClean(m.roots[i]);
    ContainsIff(Components(m.roots[i]), p);
  }

  lemma RealPart(realpath: Resolver, r: Path, rest: Path)
    requires IsResolver(realpath) && CleanPath(r) && CleanPath(rest)
    requires realpath(r) == Found(r) && (rest != [] ==> realpath(Child(r, rest[0])) == Missing)
    ensures exists k | 0 <= k <= |r + rest| ::
      && realpath((r + rest)[..k]) == Found((r + rest)[..k])
      && forall j | k < j <= |r + rest| :: realpath((r + rest)[..j]) == Missing
  {
    var full := r + rest;
    assert full[..|r|] == r;
    forall j | |r| < j <= |full| ensures realpath(full[..j]) == Missing {
      NothingBelowMissing(realpath, r, rest, j - |r|);
      assert full[..j] == r + rest[..j - |r|];
    }
  }

  lemma AcceptedParts(m: Manager, realpath: Resolver, p: string) returns (a: Ancestor)
    requires m.Valid() && IsResolver(realpath) && m.ResolveSpec(realpath, p).Ok?
    ensures a.At? && CleanPath(a.resolved) && CleanPath(a.rest) && CleanPath(a.resolved + a.rest)
    ensures m.ResolveSpec(realpath, p) == Ok(Render(a.resolved + a.rest))
    ensures WithinRoots(m.roots, Render(a.resolved + a.rest))
    ensures realpath(a.resolved) == Found(a.resolved)
    ensures a.rest != [] ==> realpath(Child(a.resolved, a.rest[0])) == Missing
  {
    var path := m.Absolute(p);
    ComponentsClean(path);
    a := NearestAncestor(realpath, Components(path), []);
    AncestorIsReal(realpath, Components(path), []);
    CleanConcat(a.resolved, a.rest);
  }

  /** Resolving an accepted path once more gives the same path; the one exception is a link that
      led to a hidden name, which is refused on its own when hidden names are not allowed. */
  lemma ResolveAgain(m: Manager, realpath: Resolver, p: string)
    requires m.Valid() && IsResolver(realpath) && m.ResolveSpec(realpath, p).Ok?
    ensures var full := m.ResolveSpec(realpath, p).path;
      m.ResolveSpec(realpath, full) == if !m.hidden && HiddenBase(full) then Forbidden else Ok(full)
  {
    var a := AcceptedParts(m, realpath, p);
    var parts := a.resolved + a.rest;
    ComponentsRender(parts);
    SearchAgain(realpath, a.resolved, a.rest, |a.rest|);
    assert a.rest[..|a.rest|] == a.rest && a.rest[|a.rest|..] == [];
  }

  /** The root directory as the only root admits nothing but itself. */
  lemma RootDirectoryAdmitsItself(hidden: bool, realpath: Resolver, path: string)
    requires IsResolver(realpath)
    ensures var m := Manager(["/"], hidden);
      m.Valid() && (m.ResolveSpec(realpath, path).Ok? ==> m.ResolveSpec(realpath, path) == Ok("/"))
  {
    var m := Manager(["/"], hidden);
    ComponentsRender([]);
    assert m.Valid();
    if m.ResolveSpec(realpath, path).Ok? {
      var a := AcceptedParts(m, realpath, path);
      ComponentsRender(a.resolved + a.rest);
      ContainsIff([], a.resolved + a.rest);
    }
  }
}
