/** A file tree without links: what is where, making directories, and listing them. */
module FileTree {
  import opened Wrappers
  import opened PathConfine

  datatype Node = Dir | File(data: string)
  type Nodes = map<Path, Node>

  function Look(n: Nodes, p: Path): Option<Node> { if p in n then Some(n[p]) else None }

  function Parent(p: Path): Path { if p == [] then [] else p[..|p| - 1] }

  /** Every node but the root lies in a directory. */
  ghost predicate IsTree(n: Nodes) {
    Look(n, []) == Some(Dir) && forall p {:trigger Parent(p)} | p in n :: Look(n, Parent(p)) == Some(Dir)
  }

  // ----- Prefixes -----

  ghost predicate Disjoint(src: Path, dst: Path) { !(src <= dst) && !(dst <= src) }

  lemma PrefixOfParent(q: Path, p: Path)
    requires p != []
    ensures q <= p <==> q == p || q <= Parent(p)
  {
    if q <= p && q != p { assert |q| < |p|; }
  }

  lemma FirstStep(src: Path, q: Path)
    requires q != []
    ensures src + [q[0]] <= src + q
  {
  }

  /** Nothing is below both of two disjoint paths, and nothing below one is above the other. */
  lemma Apart(src: Path, dst: Path, q: Path)
    requires Disjoint(src, dst) && src <= q
    ensures !(q <= dst) && !(dst <= q)
  {
  }

  /** One path is strictly inside another if and only if its entry is where the names agree. */
  lemma ChildInside(src: Path, dst: Path, s: string)
    requires src + [s] < dst + [s]
    ensures src < dst
  {
    PrefixOfParent(src + [s], dst + [s]);
    assert (dst + [s])[..|dst|] == dst;
    assert src <= src + [s];
  }

  lemma SameLast(a: Path, b: Path, s: string)
    ensures a + [s] == b + [s] <==> a == b
  {
    if a + [s] == b + [s] {
      assert (a + [s])[..|a|] == a && (b + [s])[..|b|] == b;
    }
  }

  lemma {:induction false} AncestorIsDir(n: Nodes, p: Path, q: Path)
    requires IsTree(n) && p in n && q < p
    ensures Look(n, q) == Some(Dir)
    decreases |p|
  {
    var parent := Parent(p);
    PrefixOfParent(q, p);
    assert Look(n, parent) == Some(Dir);
    if q == parent {
    } else {
      AncestorIsDir(n, parent, q);
    }
  }

  lemma ChildOnPath(n: Nodes, a: Path, s: string, t: Path)
    requires IsTree(n) && t in n && a + [s] <= t
    ensures a + [s] in n
  {
    if a + [s] != t { AncestorIsDir(n, t, a + [s]); }
  }

  lemma ReplacedIsTree(n: Nodes, p: Path, n': Nodes)
    requires IsTree(n) && p != [] && Look(n, Parent(p)) == Some(Dir)
    requires p !in n || n[p].File?
    requires n'.Keys == n.Keys + {p} && n'[p].File? && forall q | q in n && q != p :: n'[q] == n[q]
    ensures IsTree(n')
  {
    forall q | q in n' ensures Look(n', Parent(q)) == Some(Dir) {
      if q != p { assert Look(n, Parent(q)) == Some(Dir); }
    }
  }

  // ----- Changes -----

  /** Nothing has changed outside `dst`, except that directories on the way to it were made. */
  ghost predicate OnlyBelow(n: Nodes, n': Nodes, dst: Path) {
    forall p: Path | !(dst <= p) :: Look(n', p) == Look(n, p) || (p <= dst && p !in n && Look(n', p) == Some(Dir))
  }

  /** At most directories on the way to `p` have been made. */
  ghost predicate OnTheWay(n: Nodes, n': Nodes, p: Path) {
    forall q: Path :: Look(n', q) == Look(n, q) || (q <= p && q !in n && Look(n', q) == Some(Dir))
  }

  lemma OnTheWayBelow(n: Nodes, n': Nodes, dst: Path)
    requires OnTheWay(n, n', dst)
    ensures OnlyBelow(n, n', dst)
  {
  }

  lemma OnTheWayUp(n: Nodes, n': Nodes, p: Path)
    requires p != [] && OnTheWay(n, n', Parent(p))
    ensures OnTheWay(n, n', p) && OnlyBelow(n, n', p)
    ensures forall q: Path | p <= q :: Look(n', q) == Look(n, q)
  {
    forall q: Path
      ensures Look(n', q) == Look(n, q) || (q <= p && !(p <= q) && q !in n && Look(n', q) == Some(Dir))
    {
      PrefixOfParent(q, p);
    }
  }

  lemma OnlyBelowChild(n: Nodes, m: Nodes, m': Nodes, dst: Path, s: string)
    requires OnlyBelow(n, m, dst) && OnlyBelow(m, m', dst + [s])
    ensures OnlyBelow(n, m', dst)
  {
    forall p: Path | !(dst <= p)
      ensures Look(m', p) == Look(n, p) || (p <= dst && p !in n && Look(m', p) == Some(Dir))
    {
      assert !(dst + [s] <= p);
      assert Look(m', p) == Look(m, p) || (p <= dst + [s] && p !in m && Look(m', p) == Some(Dir));
      PrefixOfParent(p, dst + [s]);
      assert (dst + [s])[..|dst|] == dst;
      assert Look(m, p) == Look(n, p) || (p <= dst && p !in n && Look(m, p) == Some(Dir));
    }
  }

  // ----- os.MkdirAll -----

  /** The tree after a `MkdirAll` that meets no file, or nothing if it meets one. */
  function MkdirRun(n: Nodes, p: Path): Option<Nodes>
    decreases |p|
  {
    if p in n then (if n[p].Dir? then Some(n) else None)
    else if p == [] then None
    else
      match MkdirRun(n, Parent(p))
      case None => None
      case Some(m) => Some(m[p := Dir])
  }

  /** What is at `q` after a successful MkdirAll of `p`. */
  function MkdirResult(n: Nodes, p: Path, q: Path): Option<Node> {
    if q <= p then Some(Dir) else Look(n, q)
  }

  ghost predicate HasMkdirResult(n: Nodes, n': Nodes, p: Path) {
    forall q: Path :: Look(n', q) == MkdirResult(n, p, q)
  }

  lemma AlreadyMade(n: Nodes, p: Path)
    requires IsTree(n) && p in n && n[p].Dir?
    ensures HasMkdirResult(n, n, p)
  {
    forall q: Path ensures Look(n, q) == MkdirResult(n, p, q) {
      if q <= p && q != p {
        assert q < p;
        AncestorIsDir(n, p, q);
      }
    }
  }

  lemma MadeDirectory(n: Nodes, n': Nodes, p: Path)
    requires p != [] && p !in n && IsTree(n') && OnTheWay(n, n', Parent(p))
    requires HasMkdirResult(n, n', Parent(p))
    ensures IsTree(n'[p := Dir]) && OnTheWay(n, n'[p := Dir], p)
    ensures HasMkdirResult(n, n'[p := Dir], p)
  {
    var m := n'[p := Dir];
    forall q: Path ensures Look(m, q) == MkdirResult(n, p, q) {
      PrefixOfParent(q, p);
      assert Look(n', q) == MkdirResult(n, Parent(p), q);
    }
    assert Look(n', Parent(p)) == MkdirResult(n, Parent(p), Parent(p));
    AddedIsTree(n', p);
    forall q: Path ensures Look(m, q) == Look(n, q) || (q <= p && q !in n && Look(m, q) == Some(Dir)) {
      OnTheWayAt(n, n', p, q);
    }
  }

  lemma AddedIsTree(n: Nodes, p: Path)
    requires IsTree(n) && Look(n, Parent(p)) == Some(Dir)
    ensures IsTree(n[p := Dir])
  {
    var m := n[p := Dir];
    forall q | q in m ensures Look(m, Parent(q)) == Some(Dir) {
      if q != p { assert Look(n, Parent(q)) == Some(Dir); }
    }
  }

  lemma OnTheWayAt(n: Nodes, n': Nodes, p: Path, q: Path)
    requires p != [] && p !in n && OnTheWay(n, n', Parent(p))
    ensures Look(n'[p := Dir], q) == Look(n, q) || (q <= p && q !in n && Look(n'[p := Dir], q) == Some(Dir))
  {
    PrefixOfParent(q, p);
    assert Look(n', q) == Look(n, q) || (q <= Parent(p) && q !in n && Look(n', q) == Some(Dir));
  }

  /** Afterwards everything on the way is a directory, and nothing else has changed. */
  lemma {:induction false} MkdirMeaning(n: Nodes, p: Path)
    requires IsTree(n) && MkdirRun(n, p).Some?
    ensures var m := MkdirRun(n, p).value;
      IsTree(m) && HasMkdirResult(n, m, p) && OnTheWay(n, m, p)
    decreases |p|
  {
    if p in n {
      AlreadyMade(n, p);
    } else {
      var parent := Parent(p);
      MkdirMeaning(n, parent);
      MadeDirectory(n, MkdirRun(n, parent).value, p);
    }
  }

  /** What is new after it lies on the way. */
  lemma {:induction false} MkdirAdds(n: Nodes, p: Path, q: Path)
    requires MkdirRun(n, p).Some?
    ensures p in MkdirRun(n, p).value
    ensures q in n ==> q in MkdirRun(n, p).value && MkdirRun(n, p).value[q] == n[q]
    ensures q in MkdirRun(n, p).value && q !in n ==> q <= p && MkdirRun(n, p).value[q] == Dir
    decreases |p|
  {
    if p in n {
    } else {
      MkdirAdds(n, Parent(p), q);
      PrefixOfParent(q, p);
    }
  }

  ghost predicate AllDirs(n: Nodes) { [] in n && forall p | p in n :: n[p] == Dir }

  lemma {:induction false} MkdirAmongDirs(n: Nodes, p: Path)
    requires AllDirs(n)
    ensures MkdirRun(n, p).Some? && AllDirs(MkdirRun(n, p).value) && n.Keys <= MkdirRun(n, p).value.Keys
    decreases |p|
  {
    if p in n {
    } else {
      MkdirAmongDirs(n, Parent(p));
    }
  }

  // ----- os.ReadDir -----

  datatype Entry = Entry(name: string, isDir: bool)

  function Names(n: Nodes, p: Path): set<string> {
    set q | q in n && |q| == |p| + 1 && p <= q :: q[|p|]
  }

  lemma NameIsChild(n: Nodes, p: Path, s: string)
    requires s in Names(n, p)
    ensures p + [s] in n
  {
    var q :| q in n && |q| == |p| + 1 && p <= q && q[|p|] == s;
    assert q == p + [s];
  }

  lemma ChildIsName(n: Nodes, p: Path, s: string)
    requires p + [s] in n
    ensures s in Names(n, p)
  {
    var q := p + [s];
    assert q[|p|] == s && p <= q;
  }

  /** The order in which names are listed; the source's is alphabetical, and any will do. */
  type Order = set<string> -> seq<string>

  ghost predicate Enumerates(names: seq<string>, s: set<string>) {
    && (forall x | x in s :: exists i | 0 <= i < |names| :: names[i] == x)
    && (forall i | 0 <= i < |names| :: names[i] in s)
    && (forall i, j | 0 <= i < j < |names| :: names[i] != names[j])
  }

  ghost predicate IsOrder(order: Order) { forall s :: Enumerates(order(s), s) }

  ghost function Enumeration(s: set<string>): (names: seq<string>)
    ensures Enumerates(names, s)
    decreases |s|
  {
    if s == {} then []
    else
      var x :| x in s;
      var rest := Enumeration(s - {x});
      EnumeratesMore(rest, s, x);
      rest + [x]
  }

  lemma EnumeratesMore(rest: seq<string>, s: set<string>, x: string)
    requires x in s && Enumerates(rest, s - {x})
    ensures Enumerates(rest + [x], s)
  {
    var names := rest + [x];
    forall y | y in s ensures exists i | 0 <= i < |names| :: names[i] == y {
      if y == x {
        assert names[|rest|] == y;
      } else {
        assert y in s - {x};
        var i :| 0 <= i < |rest| && rest[i] == y;
        assert names[i] == y;
      }
    }
  }

  lemma OrdersExist()
    ensures exists order :: IsOrder(order)
  {
    var order: Order := s => Enumeration(s);
    assert IsOrder(order);
  }

  function Entries(order: Order, n: Nodes, p: Path): (es: seq<Entry>)
    ensures |es| == |order(Names(n, p))|
    ensures forall i | 0 <= i < |es| :: es[i].name == order(Names(n, p))[i]
    ensures forall i | 0 <= i < |es| :: es[i].isDir == (Look(n, p + [es[i].name]) == Some(Dir))
  {
    var names := order(Names(n, p));
    seq(|names|, i requires 0 <= i < |names| => Entry(names[i], Look(n, p + [names[i]]) == Some(Dir)))
  }

  /** `entries` are the nodes `names` in directory `p`, each once. */
  ghost predicate Lists(n: Nodes, p: Path, entries: seq<Entry>, names: set<string>) {
    && (forall s | s in names :: exists i | 0 <= i < |entries| :: entries[i].name == s)
    && (forall i | 0 <= i < |entries| ::
          && entries[i].name in names && p + [entries[i].name] in n
          && entries[i].isDir == n[p + [entries[i].name]].Dir?)
    && (forall i, j | 0 <= i < j < |entries| :: entries[i].name != entries[j].name)
  }

  lemma EntriesList(order: Order, n: Nodes, p: Path)
    requires IsOrder(order)
    ensures Lists(n, p, Entries(order, n, p), Names(n, p))
  {
    var es, s := Entries(order, n, p), Names(n, p);
    assert Enumerates(order(s), s);
    forall x | x in s ensures exists i | 0 <= i < |es| :: es[i].name == x {
      var i :| 0 <= i < |order(s)| && order(s)[i] == x;
      assert es[i].name == x;
    }
    forall i | 0 <= i < |es| ensures p + [es[i].name] in n {
      NameIsChild(n, p, es[i].name);
    }
  }

  // ----- filepath.EvalSymlinks -----

  /** A file on the way keeps what it is asked for from being looked up at all. */
  predicate ThroughFile(n: Nodes, p: Path) {
    exists k | 0 <= k < |p| :: p[..k] in n && n[p[..k]].File?
  }

  /** `EvalSymlinks` on a tree without links. */
  function EvalIn(n: Nodes): Resolver {
    (p: Path) => if p in n then Found(p) else if ThroughFile(n, p) then Failed else Missing
  }

  /** ... has what confinement asks of a resolver. */
  lemma EvalInIsResolver(n: Nodes)
    requires IsTree(n)
    ensures IsResolver(EvalIn(n))
  {
    var e := EvalIn(n);
    forall p: Path | e(p).Found? ensures e(p).path == p {
    }
    forall p: Path, c: string | e(p).Missing? ensures e(Child(p, c)) == Missing {
      MissingBelow(n, p, c);
    }
  }

  lemma MissingBelow(n: Nodes, p: Path, c: string)
    requires IsTree(n) && EvalIn(n)(p) == Missing
    ensures EvalIn(n)(Child(p, c)) == Missing
  {
    var q := Child(p, c);
    assert Parent(q) == p;
    forall k | 0 <= k < |q| ensures !(q[..k] in n && n[q[..k]].File?) {
      if k < |p| {
        assert q[..k] == p[..k];
      } else {
        assert q[..k] == p;
      }
    }
  }

  // ----- Resolving paths without links -----

  lemma {:induction false} AncestorWithoutLinks(n: Nodes, p: Path, rest: Path)
    requires IsTree(n)
    ensures var a := NearestAncestor(EvalIn(n), p, rest);
      if ThroughFile(n, p) then a == NoAncestor else a.At? && a.resolved + a.rest == p + rest
    decreases |p|
  {
    var e := EvalIn(n);
    if p in n {
      forall k | 0 <= k < |p| ensures !(p[..k] in n && n[p[..k]].File?) {
        AncestorIsDir(n, p, p[..k]);
      }
      assert e(p) == Found(p);
    } else if ThroughFile(n, p) {
      assert e(p) == Failed;
    } else {
      assert e(p) == Missing;
      var up, last := p[..|p| - 1], [p[|p| - 1]];
      forall k | 0 <= k < |up| ensures !(up[..k] in n && n[up[..k]].File?) {
        assert up[..k] == p[..k];
      }
      AncestorWithoutLinks(n, up, last + rest);
      assert up + (last + rest) == p + rest;
    }
  }

  /** Without links the answer is read off the path asked for: forbidden outside the roots, or if
      its last name is hidden and those are not allowed; an error if a file is on the way; and the
      path itself otherwise. */
  lemma ResolveWithoutLinks(m: Manager, n: Nodes, p: string)
    requires m.Valid() && IsTree(n)
    ensures var c := Asked(m, p);
      m.ResolveSpec(EvalIn(n), p) ==
        if !InRoots(m, c) || (!m.hidden && HiddenName(c)) then Forbidden
        else if ThroughFile(n, c) then IoError
        else Ok(Render(c))
  {
    var c := Asked(m, p);
    AbsoluteIsAsked(m, p);
    WithinIff(m, c);
    HiddenIff(m.Absolute(p));
    AncestorWithoutLinks(n, c, []);
    assert c + [] == c;
  }
}
