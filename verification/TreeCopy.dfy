/** Copying files and directories in a tree without links. */
module TreeCopy {
  import opened Wrappers
  import opened PathConfine
  import opened FileTree

  // ----- One copy, on values -----

  /** What a copied node becomes: copying a file onto itself truncates it before it is read. */
  function Copied(x: Node, onto: bool): Node {
    if x.File? && onto then File("") else x
  }

  /** The tree after a copyFile that no I/O error stops, or nothing if it is refused. */
  function FileRun(n: Nodes, src: Path, dst: Path): Option<Nodes> {
    if dst == [] || Look(n, dst) == Some(Dir) || src !in n || n[src].Dir? then None
    else
      match MkdirRun(n, Parent(dst))
      case None => None
      case Some(m) => Some(m[dst := Copied(n[src], src == dst)])
  }

  /** `TooDeep`: the run needs more nested calls than it was allowed. */
  datatype Run = Ended(nodes: Nodes) | Stopped | TooDeep

  /** A copyDir that no I/O error stops and that may nest `k` calls, itself included. */
  function DirRun(order: Order, n: Nodes, src: Path, dst: Path, k: nat): Run
    decreases k, 0, 0
  {
    if k == 0 then TooDeep
    else if src !in n then Stopped
    else
      match MkdirRun(n, dst)
      case None => Stopped
      case Some(m) =>
        if Look(m, src) != Some(Dir) then Stopped
        else EntriesRun(order, m, src, dst, Entries(order, m, src), 0, k - 1)
  }

  /** One turn of the loop over the entries. */
  function EntryRun(order: Order, n: Nodes, src: Path, dst: Path, e: Entry, k: nat): Run
    decreases k, 1, 0
  {
    if e.isDir then DirRun(order, n, src + [e.name], dst + [e.name], k)
    else
      match FileRun(n, src + [e.name], dst + [e.name])
      case None => Stopped
      case Some(m) => Ended(m)
  }

  /** The loop over the entries, from entry `i` on. */
  function EntriesRun(order: Order, n: Nodes, src: Path, dst: Path, es: seq<Entry>, i: nat, k: nat): Run
    requires i <= |es|
    decreases k, 1, |es| - i
  {
    if i == |es| then Ended(n)
    else
      var r := EntryRun(order, n, src, dst, es[i], k);
      if r.Ended? then EntriesRun(order, r.nodes, src, dst, es, i + 1, k) else r
  }

  lemma EntriesNext(order: Order, n: Nodes, src: Path, dst: Path, es: seq<Entry>, i: nat, k: nat)
    requires i < |es|
    ensures var r, all := EntryRun(order, n, src, dst, es[i], k), EntriesRun(order, n, src, dst, es, i, k);
      && (!r.Ended? ==> all == r)
      && (r.Ended? ==> all == EntriesRun(order, r.nodes, src, dst, es, i + 1, k))
  {
  }

  /** The recursion comes back, with or without an error: it does within some number of nested calls. */
  ghost predicate Returns(order: Order, n: Nodes, src: Path, dst: Path) {
    exists k: nat :: DirRun(order, n, src, dst, k) != TooDeep
  }

  /** What a successful `Copy` has done. */
  ghost predicate WasCopied(order: Order, n: Nodes, n': Nodes, from: Path, to: Path) {
    && from in n
    && (n[from].Dir? ==> exists k: nat :: DirRun(order, n, from, to, k) == Ended(n'))
    && (n[from].File? ==> FileRun(n, from, to) == Some(n'))
  }

  /** `Copy` succeeds if no I/O error stops it. */
  ghost predicate CopySucceeds(order: Order, n: Nodes, from: Path, to: Path) {
    && from in n
    && if n[from].Dir? then exists k: nat :: DirRun(order, n, from, to, k).Ended? else FileRun(n, from, to).Some?
  }

  lemma FileWritten(n: Nodes, n1: Nodes, dst: Path, data: string)
    requires IsTree(n1) && dst != [] && (dst !in n1 || n1[dst].File?) && OnlyBelow(n, n1, dst)
    requires Look(n1, Parent(dst)) == Some(Dir)
    ensures var n2 := n1[dst := File(data)];
      IsTree(n2) && OnlyBelow(n, n2, dst)
  {
    var n2 := n1[dst := File(data)];
    ReplacedIsTree(n1, dst, n2);
    forall p: Path | !(dst <= p)
      ensures Look(n2, p) == Look(n, p) || (p <= dst && p !in n && Look(n2, p) == Some(Dir))
    {
      assert Look(n2, p) == Look(n1, p);
    }
  }

  // ----- The methods -----

  datatype Error = Refused | NotFound | IsDirectory | Io
  datatype Outcome = Done | Error(error: Error)

  class FileSystem {
    var nodes: Nodes
    const order: Order
    /** I/O errors may strike. */
    const faulty: bool

    ghost predicate Valid()
      reads this
    {
      IsTree(nodes) && IsOrder(order)
    }

    constructor (order: Order, faulty: bool)
      requires IsOrder(order)
      ensures nodes == map[[] := Dir] && this.order == order && this.faulty == faulty && Valid()
    {
      nodes, this.order, this.faulty := map[[] := Dir], order, faulty;
    }

    /** Whether an operation of the system goes through. */
    method Works() returns (ok: bool)
      ensures !faulty ==> ok
    {
      ok := *;
      ok := ok || !faulty;
    }

    method MkdirAll(p: Path) returns (ok: bool)
      requires IsTree(nodes)
      modifies this`nodes
      ensures IsTree(nodes) && OnTheWay(old(nodes), nodes, p)
      ensures ok ==> MkdirRun(old(nodes), p) == Some(nodes)
      ensures !faulty ==> (ok <==> MkdirRun(old(nodes), p).Some?)
      decreases |p|
    {
      if p in nodes {
        return nodes[p].Dir?;
      }
      var parent := Parent(p);
      ghost var n := nodes;
      ok := MkdirAll(parent);
      OnTheWayUp(n, nodes, p);
      if ok {
        ok := Works();
        if ok {
          MkdirMeaning(n, parent);
          MadeDirectory(n, nodes, p);
          nodes := nodes[p := Dir];
        }
      }
    }

    method ReadDir(p: Path) returns (ok: bool, entries: seq<Entry>)
      ensures ok ==> Look(nodes, p) == Some(Dir) && entries == Entries(order, nodes, p)
      ensures !faulty ==> (ok <==> Look(nodes, p) == Some(Dir))
    {
      ok := Works();
      if !ok || p !in nodes || !nodes[p].Dir? {
        return false, [];
      }
      return true, Entries(order, nodes, p);
    }

    method CopyFile(src: Path, dst: Path) returns (r: Outcome)
      requires IsTree(nodes)
      modifies this`nodes
      ensures IsTree(nodes) && OnlyBelow(old(nodes), nodes, dst)
      ensures r == Done ==> FileRun(old(nodes), src, dst) == Some(nodes)
      ensures r == Error(IsDirectory) <==> Look(old(nodes), dst) == Some(Dir)
      ensures r == Done || r == Error(IsDirectory) || r == Error(Io)
      ensures !faulty ==> (r == Done <==> FileRun(old(nodes), src, dst).Some?)
    {
      if dst in nodes && nodes[dst].Dir? {
        return Error(IsDirectory);
      }
      var readable := Works();
      if !readable || src !in nodes {
        return Error(Io);
      }
      assert dst != [];
      var parent := Parent(dst);
      ghost var n := nodes;
      var made := MkdirAll(parent);
      OnTheWayUp(n, nodes, dst);
      if !made {
        return Error(Io);
      }
      ghost var n1 := nodes;
      MkdirMeaning(n, parent);
      MkdirAdds(n, parent, src);
      var created := Works();
      if !created {
        return Error(Io);
      }
      var copied, data := Overwrite(src, dst);
      FileWritten(n, n1, dst, data);
      if !copied {
        return Error(Io);
      }
      return Done;
    }

    /** Creates or truncates the destination; only then the source is read, through its open
        descriptor, which fails for a directory. On an error part of it has been copied. */
    method Overwrite(src: Path, dst: Path) returns (copied: bool, data: string)
      requires src in nodes
      modifies this`nodes
      ensures nodes == old(nodes)[dst := File(data)]
      ensures copied ==> old(nodes)[src].File? && File(data) == Copied(old(nodes)[src], src == dst)
      ensures !faulty ==> (copied <==> old(nodes)[src].File?)
    {
      var source := nodes[src];
      nodes := nodes[dst := File("")];
      if source.Dir? {
        return false, "";
      }
      copied := Works();
      data := nodes[src].data;
      if !copied {
        var upTo: int := *;
        data := if 0 <= upTo <= |data| then data[..upTo] else data;
      }
      nodes := nodes[dst := File(data)];
    }

    /** Defined wherever the recursion comes back at all; `k` bounds its depth. */
    method CopyDir(src: Path, dst: Path, ghost k: nat) returns (r: Outcome)
      requires Valid() && DirRun(order, nodes, src, dst, k) != TooDeep
      modifies this`nodes
      ensures Valid() && OnlyBelow(old(nodes), nodes, dst)
      ensures r == Done ==> DirRun(order, old(nodes), src, dst, k) == Ended(nodes)
      ensures r == Done || r == Error(IsDirectory) || r == Error(Io)
      ensures !faulty ==> (r == Done <==> DirRun(order, old(nodes), src, dst, k).Ended?)
      decreases k
    {
      ghost var n := nodes;
      var found := Works();
      if !found || src !in nodes {
        return Error(Io);
      }
      var made := MkdirAll(dst);
      OnTheWayBelow(n, nodes, dst);
      if !made {
        return Error(Io);
      }
      var read, entries := ReadDir(src);
      if !read {
        return Error(Io);
      }
      ghost var run, room := DirRun(order, n, src, dst, k), k - 1;
      for i := 0 to |entries|
        invariant Valid() && OnlyBelow(n, nodes, dst)
        invariant EntriesRun(order, nodes, src, dst, entries, i, room) == run
      {
        ghost var before := nodes;
        var e := entries[i];
        EntriesNext(order, before, src, dst, entries, i, room);
        if e.isDir {
          r := CopyDir(src + [e.name], dst + [e.name], room);
        } else {
          r := CopyFile(src + [e.name], dst + [e.name]);
        }
        OnlyBelowChild(n, before, nodes, dst, e.name);
        if r != Done {
          return r;
        }
      }
      return Done;
    }

    /** Copy, from the caller's strings: both ends are resolved and confined first. */
    method Copy(m: Manager, src: string, dst: string) returns (r: Outcome)
      requires Valid() && m.Valid()
      requires var s, d := m.ResolveSpec(EvalIn(nodes), src), m.ResolveSpec(EvalIn(nodes), dst);
        s.Ok? && d.Ok? && Look(nodes, Components(s.path)) == Some(Dir) ==>
          Returns(order, nodes, Components(s.path), Components(d.path))
      modifies this`nodes
      ensures Valid()
      ensures var s, d := m.ResolveSpec(EvalIn(old(nodes)), src), m.ResolveSpec(EvalIn(old(nodes)), dst);
        && (r == Error(Refused) <==> !s.Ok? || !d.Ok?)
        && (r == Error(Refused) ==> nodes == old(nodes))
        && (s.Ok? && d.Ok? ==>
              var from, to := Components(s.path), Components(d.path);
              && OnlyBelow(old(nodes), nodes, to)
              && (r == Done ==> WasCopied(order, old(nodes), nodes, from, to))
              && (r == Error(NotFound) ==> from !in old(nodes) && nodes == old(nodes))
              && (!faulty ==> (r == Error(NotFound) <==> from !in old(nodes)))
              && (!faulty ==> (r == Done <==> CopySucceeds(order, old(nodes), from, to))))
    {
      var s := m.Resolve(EvalIn(nodes), src);
      if !s.Ok? {
        return Error(Refused);
      }
      var d := m.Resolve(EvalIn(nodes), dst);
      if !d.Ok? {
        return Error(Refused);
      }
      var from, to := Components(s.path), Components(d.path);
      var seen := Works();
      if !seen {
        return Error(Io);
      }
      if from !in nodes {
        return Error(NotFound);
      }
      if nodes[from].Dir? {
        ghost var k: nat :| DirRun(order, nodes, from, to, k) != TooDeep;
        if j: nat :| DirRun(order, nodes, from, to, j).Ended? {
          RoomIsEnough(order, nodes, from, to, if j < k then j else k, if j < k then k else j);
        }
        r := CopyDir(from, to, k);
      } else {
        r := CopyFile(from, to);
      }
    }
  }

  /** What is at `p` after a successful copyFile. */
  function FileResult(n: Nodes, src: Path, dst: Path, p: Path): Option<Node>
    requires src in n
  {
    if p == dst then Some(Copied(n[src], src == dst))
    else if p <= dst then Some(Dir)
    else Look(n, p)
  }

  /** What is at `p` when the entries `names` of `src` have been copied into `dst`. */
  function DirResult(n: Nodes, src: Path, dst: Path, names: set<string>, p: Path): Option<Node> {
    if p <= dst then Some(Dir)
    else if dst <= p && p[|dst|] in names && src + p[|dst|..] in n then Some(Copied(n[src + p[|dst|..]], src == dst))
    else Look(n, p)
  }

  ghost predicate HasFileResult(n: Nodes, n': Nodes, src: Path, dst: Path)
    requires src in n
  {
    forall p: Path :: Look(n', p) == FileResult(n, src, dst, p)
  }

  ghost predicate HasDirResult(n: Nodes, n': Nodes, src: Path, dst: Path, names: set<string>) {
    forall p: Path :: Look(n', p) == DirResult(n, src, dst, names, p)
  }

  /** What a copied file amounts to, node by node. */
  lemma FileMeaning(n: Nodes, src: Path, dst: Path)
    requires IsTree(n) && FileRun(n, src, dst).Some?
    ensures var m := FileRun(n, src, dst).value;
      IsTree(m) && OnlyBelow(n, m, dst) && !(src < dst) && HasFileResult(n, m, src, dst)
  {
    var parent := Parent(dst);
    var m := MkdirRun(n, parent).value;
    MkdirMeaning(n, parent);
    OnTheWayUp(n, m, dst);
    assert Look(m, dst) == Look(n, dst);
    assert Look(m, parent) == MkdirResult(n, parent, parent);
    FileWritten(n, m, dst, Copied(n[src], src == dst).data);
    forall p: Path ensures Look(m[dst := Copied(n[src], src == dst)], p) == FileResult(n, src, dst, p) {
      PrefixOfParent(p, dst);
      assert Look(m, p) == MkdirResult(n, parent, p);
    }
    PrefixOfParent(src, dst);
    assert Look(m, src) == MkdirResult(n, parent, src);
    MkdirAdds(n, parent, src);
  }

  // ----- What every run keeps -----

  /** What was there still is, as a directory or a file. */
  ghost predicate NodesStay(n: Nodes, n': Nodes) {
    forall p | p in n :: p in n' && n[p].Dir? == n'[p].Dir?
  }

  /** The tree is still one, no node is lost, and nothing changed but below `dst` and on the way. */
  ghost predicate Grown(n: Nodes, n': Nodes, dst: Path) {
    IsTree(n') && OnlyBelow(n, n', dst) && NodesStay(n, n')
  }

  lemma MkdirGrows(n: Nodes, p: Path)
    requires IsTree(n) && MkdirRun(n, p).Some?
    ensures Grown(n, MkdirRun(n, p).value, p)
  {
    MkdirMeaning(n, p);
    OnTheWayBelow(n, MkdirRun(n, p).value, p);
    forall q | q in n ensures q in MkdirRun(n, p).value && MkdirRun(n, p).value[q] == n[q] {
      MkdirAdds(n, p, q);
    }
  }

  lemma FileGrows(n: Nodes, src: Path, dst: Path)
    requires IsTree(n) && FileRun(n, src, dst).Some?
    ensures Grown(n, FileRun(n, src, dst).value, dst)
  {
    FileMeaning(n, src, dst);
    MkdirGrows(n, Parent(dst));
  }

  lemma GrownThrough(n: Nodes, m: Nodes, n': Nodes, dst: Path)
    requires Grown(n, m, dst) && Grown(m, n', dst)
    ensures Grown(n, n', dst)
  {
    forall p: Path | !(dst <= p)
      ensures Look(n', p) == Look(n, p) || (p <= dst && p !in n && Look(n', p) == Some(Dir))
    {
      assert Look(n', p) == Look(m, p) || (p <= dst && p !in m && Look(n', p) == Some(Dir));
    }
  }

  lemma GrownChild(n: Nodes, n': Nodes, dst: Path, s: string)
    requires Grown(n, n', dst + [s]) && dst in n
    ensures Grown(n, n', dst)
  {
    OnlyBelowChild(n, n, n', dst, s);
  }

  lemma {:induction false} DirGrows(order: Order, n: Nodes, src: Path, dst: Path, k: nat)
    requires IsTree(n)
    ensures var r := DirRun(order, n, src, dst, k); r.Ended? ==> Grown(n, r.nodes, dst)
    decreases k, 0, 0
  {
    if k == 0 || src !in n || MkdirRun(n, dst).None? {
    } else {
      var m := MkdirRun(n, dst).value;
      MkdirGrows(n, dst);
      MkdirAdds(n, dst, dst);
      if Look(m, src) == Some(Dir) {
        var room := k - 1;
        EntriesGrow(order, m, src, dst, Entries(order, m, src), 0, room);
        var r := EntriesRun(order, m, src, dst, Entries(order, m, src), 0, room);
        if r.Ended? { GrownThrough(n, m, r.nodes, dst); }
      }
    }
  }

  lemma {:induction false} EntryGrows(order: Order, n: Nodes, src: Path, dst: Path, e: Entry, k: nat)
    requires IsTree(n)
    ensures var r := EntryRun(order, n, src, dst, e, k); r.Ended? ==> Grown(n, r.nodes, dst + [e.name])
    decreases k, 1, 0
  {
    if e.isDir {
      DirGrows(order, n, src + [e.name], dst + [e.name], k);
    } else if FileRun(n, src + [e.name], dst + [e.name]).Some? {
      FileGrows(n, src + [e.name], dst + [e.name]);
    }
  }

  lemma {:induction false} EntriesGrow(
    order: Order, n: Nodes, src: Path, dst: Path, es: seq<Entry>, i: nat, k: nat)
    requires IsTree(n) && dst in n && i <= |es|
    ensures var r := EntriesRun(order, n, src, dst, es, i, k); r.Ended? ==> Grown(n, r.nodes, dst)
    decreases k, 1, |es| - i
  {
    if i == |es| {
    } else {
      EntryGrows(order, n, src, dst, es[i], k);
      var r := EntryRun(order, n, src, dst, es[i], k);
      if r.Ended? {
        GrownChild(n, r.nodes, dst, es[i].name);
        EntriesGrow(order, r.nodes, src, dst, es, i + 1, k);
        var r' := EntriesRun(order, r.nodes, src, dst, es, i + 1, k);
        if r'.Ended? { GrownThrough(n, r.nodes, r'.nodes, dst); }
      }
    }
  }

  // ----- More room changes nothing -----

  lemma {:induction false} DirMoreRoom(order: Order, n: Nodes, src: Path, dst: Path, k: nat)
    requires DirRun(order, n, src, dst, k) != TooDeep
    ensures DirRun(order, n, src, dst, k + 1) == DirRun(order, n, src, dst, k)
    decreases k, 0, 0
  {
    if src in n && MkdirRun(n, dst).Some? {
      var m := MkdirRun(n, dst).value;
      if Look(m, src) == Some(Dir) {
        EntriesMoreRoom(order, m, src, dst, Entries(order, m, src), 0, k - 1);
      }
    }
  }

  lemma {:induction false} EntriesMoreRoom(
    order: Order, n: Nodes, src: Path, dst: Path, es: seq<Entry>, i: nat, k: nat)
    requires i <= |es| && EntriesRun(order, n, src, dst, es, i, k) != TooDeep
    ensures EntriesRun(order, n, src, dst, es, i, k + 1) == EntriesRun(order, n, src, dst, es, i, k)
    decreases k, 1, |es| - i
  {
    if i == |es| {
    } else {
      var e := es[i];
      if e.isDir {
        DirMoreRoom(order, n, src + [e.name], dst + [e.name], k);
      }
      var r := EntryRun(order, n, src, dst, e, k);
      assert EntryRun(order, n, src, dst, e, k + 1) == r;
      if r.Ended? {
        EntriesMoreRoom(order, r.nodes, src, dst, es, i + 1, k);
      }
    }
  }

  /** A run that comes back is the same with any more room: `k` only says when to give up. */
  lemma {:induction false} RoomIsEnough(order: Order, n: Nodes, src: Path, dst: Path, k: nat, k': nat)
    requires DirRun(order, n, src, dst, k) != TooDeep && k <= k'
    ensures DirRun(order, n, src, dst, k') == DirRun(order, n, src, dst, k)
    decreases k' - k
  {
    if k == k' {
    } else {
      DirMoreRoom(order, n, src, dst, k);
      RoomIsEnough(order, n, src, dst, k + 1, k');
    }
  }

  // ----- Where the recursion comes back -----

  /** What the recursion can come across is at most `b` components deep. */
  ghost predicate Reach(n: Nodes, src: Path, dst: Path, b: nat) {
    forall q | q in n && (src <= q || (dst < src && dst <= q)) :: |q| <= b
  }

  /** A new node is a copy of one the recursion came across, or a directory on the way. */
  ghost predicate NewWithin(n: Nodes, n': Nodes, src: Path, dst: Path, b: nat) {
    forall q | q in n' && q !in n :: |q| + |src| <= b + |dst| && (q <= dst || dst <= q)
  }

  lemma StillReach(n: Nodes, n': Nodes, src: Path, dst: Path, b: nat)
    requires Reach(n, src, dst, b) && NewWithin(n, n', src, dst, b) && !(src < dst)
    ensures Reach(n', src, dst, b)
  {
    forall q | q in n' && (src <= q || (dst < src && dst <= q)) ensures |q| <= b {
      if q !in n {
        NewIsShallow(src, dst, b, q);
      }
    }
  }

  lemma NewIsShallow(src: Path, dst: Path, b: nat, q: Path)
    requires |q| + |src| <= b + |dst| && (q <= dst || dst <= q) && !(src < dst)
    requires src <= q || (dst < src && dst <= q)
    ensures |q| <= b
  {
    if |dst| <= |src| {
    } else {
      assert src <= dst ==> src < dst;
      Apart(src, dst, q);
    }
  }

  lemma ReachChild(n: Nodes, src: Path, dst: Path, b: nat, s: string)
    requires Reach(n, src, dst, b)
    ensures Reach(n, src + [s], dst + [s], b)
  {
    var a, d := src + [s], dst + [s];
    forall q | q in n && (a <= q || (d < a && d <= q)) ensures |q| <= b {
      if a <= q {
        assert src <= a <= q;
      } else {
        ChildInside(dst, src, s);
        assert dst <= d <= q;
      }
    }
  }

  lemma NewThrough(n: Nodes, m: Nodes, n': Nodes, src: Path, dst: Path, b: nat)
    requires NewWithin(n, m, src, dst, b) && NewWithin(m, n', src, dst, b)
    ensures NewWithin(n, n', src, dst, b)
  {
  }

  lemma NewFromChild(n: Nodes, n': Nodes, src: Path, dst: Path, b: nat, s: string)
    requires NewWithin(n, n', src + [s], dst + [s], b)
    ensures NewWithin(n, n', src, dst, b)
  {
    forall q | q in n' && q !in n ensures |q| + |src| <= b + |dst| && (q <= dst || dst <= q) {
      PrefixOfParent(q, dst + [s]);
      assert (dst + [s])[..|dst|] == dst && dst <= dst + [s];
    }
  }

  lemma MkdirNew(n: Nodes, p: Path, src: Path, dst: Path, b: nat)
    requires MkdirRun(n, p).Some? && p <= dst && |src| <= b
    ensures NewWithin(n, MkdirRun(n, p).value, src, dst, b)
  {
    var m := MkdirRun(n, p).value;
    forall q | q in m && q !in n ensures |q| + |src| <= b + |dst| && (q <= dst || dst <= q) {
      MkdirAdds(n, p, q);
    }
  }

  lemma FileNew(n: Nodes, src: Path, dst: Path, b: nat)
    requires FileRun(n, src, dst).Some? && |src| <= b
    ensures NewWithin(n, FileRun(n, src, dst).value, src, dst, b)
  {
    MkdirNew(n, Parent(dst), src, dst, b);
  }

  /** Unless the destination lies strictly inside the source, the recursion comes back before it
      has nested more calls than there are levels below the source. */
  lemma {:induction false} DirEnds(order: Order, n: Nodes, src: Path, dst: Path, b: nat, k: nat)
    requires IsOrder(order) && Reach(n, src, dst, b) && !(src < dst) && k > 0 && |src| + k > b
    ensures var r := DirRun(order, n, src, dst, k);
      r != TooDeep && (r.Ended? ==> NewWithin(n, r.nodes, src, dst, b))
    decreases k, 0, 0
  {
    if src !in n || MkdirRun(n, dst).None? {
    } else {
      var m := MkdirRun(n, dst).value;
      MkdirNew(n, dst, src, dst, b);
      StillReach(n, m, src, dst, b);
      if Look(m, src) == Some(Dir) {
        var es := Entries(order, m, src);
        ListingReaches(order, m, src, dst, b);
        EntriesEnd(order, m, src, dst, es, 0, b, k - 1);
        var r := EntriesRun(order, m, src, dst, es, 0, k - 1);
        if r.Ended? { NewThrough(n, m, r.nodes, src, dst, b); }
      }
    }
  }

  lemma ListingReaches(order: Order, m: Nodes, src: Path, dst: Path, b: nat)
    requires IsOrder(order) && Reach(m, src, dst, b)
    ensures Entries(order, m, src) != [] ==> |src| + 1 <= b
  {
    EntriesList(order, m, src);
    var es := Entries(order, m, src);
    if es != [] {
      var q := src + [es[0].name];
      assert q in m && src <= q;
    }
  }

  lemma {:induction false} EntryEnds(
    order: Order, n: Nodes, src: Path, dst: Path, e: Entry, b: nat, k: nat)
    requires IsOrder(order) && Reach(n, src, dst, b) && !(src < dst) && |src| + 1 <= b && |src| + 1 + k > b
    ensures var r := EntryRun(order, n, src, dst, e, k);
      r != TooDeep && (r.Ended? ==> NewWithin(n, r.nodes, src, dst, b))
    decreases k, 1, 0
  {
    var a, d := src + [e.name], dst + [e.name];
    if a < d { ChildInside(src, dst, e.name); }
    ReachChild(n, src, dst, b, e.name);
    if e.isDir {
      DirEnds(order, n, a, d, b, k);
      var r := DirRun(order, n, a, d, k);
      if r.Ended? { NewFromChild(n, r.nodes, src, dst, b, e.name); }
    } else if FileRun(n, a, d).Some? {
      FileNew(n, a, d, b);
      NewFromChild(n, FileRun(n, a, d).value, src, dst, b, e.name);
    }
  }

  lemma {:induction false} EntriesEnd(
    order: Order, n: Nodes, src: Path, dst: Path, es: seq<Entry>, i: nat, b: nat, k: nat)
    requires IsOrder(order) && Reach(n, src, dst, b) && !(src < dst) && i <= |es|
    requires es != [] ==> |src| + 1 <= b
    requires |src| + 1 + k > b
    ensures var r := EntriesRun(order, n, src, dst, es, i, k);
      r != TooDeep && (r.Ended? ==> NewWithin(n, r.nodes, src, dst, b))
    decreases k, 1, |es| - i
  {
    if i == |es| {
    } else {
      EntryEnds(order, n, src, dst, es[i], b, k);
      var r := EntryRun(order, n, src, dst, es[i], k);
      if r.Ended? {
        StillReach(n, r.nodes, src, dst, b);
        EntriesEnd(order, r.nodes, src, dst, es, i + 1, b, k);
        var r' := EntriesRun(order, r.nodes, src, dst, es, i + 1, k);
        if r'.Ended? { NewThrough(n, r.nodes, r'.nodes, src, dst, b); }
      }
    }
  }

  lemma {:induction false} SomeBound(n: Nodes) returns (b: nat)
    ensures forall q | q in n :: |q| <= b
    decreases |n|
  {
    if n == map[] {
      b := 0;
    } else {
      var p :| p in n;
      var rest := n - {p};
      assert rest.Keys == n.Keys - {p};
      assert |rest.Keys| == |rest| && |n.Keys| == |n|;
      var c := SomeBound(rest);
      b := if c < |p| then |p| else c;
      forall q | q in n ensures |q| <= b {
        if q != p { assert q in rest; }
      }
    }
  }

  lemma AlwaysReturns(order: Order, n: Nodes, src: Path, dst: Path)
    requires IsOrder(order) && !(src < dst)
    ensures Returns(order, n, src, dst)
  {
    var b := SomeBound(n);
    DirEnds(order, n, src, dst, b, b + 1);
  }

  // ----- Where it does not -----

  /** With the destination strictly inside the source no run ever succeeds, however many nested
      calls it is allowed: each makes one more of the same kind. */
  lemma {:induction false} NeverEnds(order: Order, n: Nodes, src: Path, dst: Path, k: nat)
    requires IsOrder(order) && IsTree(n) && src < dst
    ensures !DirRun(order, n, src, dst, k).Ended?
    decreases k, 0, 0
  {
    if k == 0 || src !in n || MkdirRun(n, dst).None? {
    } else {
      var m := MkdirRun(n, dst).value;
      MkdirMeaning(n, dst);
      if Look(m, src) == Some(Dir) {
        var j := OnTheWayDown(order, n, m, src, dst);
        EntriesNeverEnd(order, m, src, dst, Entries(order, m, src), 0, j, k - 1);
      }
    }
  }

  /** A directory whose copy again goes inside it. */
  predicate Inward(src: Path, dst: Path, e: Entry) { e.isDir && src + [e.name] < dst + [e.name] }

  /** The entry that leads to the destination. */
  lemma OnTheWayDown(order: Order, n: Nodes, m: Nodes, src: Path, dst: Path) returns (j: nat)
    requires IsOrder(order) && src < dst && HasMkdirResult(n, m, dst)
    ensures var es := Entries(order, m, src); j < |es| && Inward(src, dst, es[j])
  {
    var s, es := dst[|src|], Entries(order, m, src);
    assert src + [s] <= dst;
    assert Look(m, src + [s]) == MkdirResult(n, dst, src + [s]);
    ChildIsName(m, src, s);
    EntriesList(order, m, src);
    j :| 0 <= j < |es| && es[j].name == s;
    assert src + [s] < dst + [s];
  }

  lemma {:induction false} EntriesNeverEnd(
    order: Order, n: Nodes, src: Path, dst: Path, es: seq<Entry>, i: nat, j: nat, k: nat)
    requires IsOrder(order) && IsTree(n) && i <= j < |es|
    requires Inward(src, dst, es[j])
    ensures !EntriesRun(order, n, src, dst, es, i, k).Ended?
    decreases k, 1, j - i
  {
    var r := EntryRun(order, n, src, dst, es[i], k);
    if i == j {
      InwardNeverEnds(order, n, src, dst, es[j], k);
    } else {
      EntryGrows(order, n, src, dst, es[i], k);
      if r.Ended? {
        EntriesNeverEnd(order, r.nodes, src, dst, es, i + 1, j, k);
      }
    }
  }

  lemma {:induction false} InwardNeverEnds(order: Order, n: Nodes, src: Path, dst: Path, e: Entry, k: nat)
    requires IsOrder(order) && IsTree(n) && Inward(src, dst, e)
    ensures !EntryRun(order, n, src, dst, e, k).Ended?
    decreases k, 0, 1
  {
    NeverEnds(order, n, src + [e.name], dst + [e.name], k);
  }

  /** Where there are only directories nothing stops a run. */
  lemma {:induction false} DirsStopNothing(order: Order, n: Nodes, src: Path, dst: Path, k: nat)
    requires IsOrder(order) && AllDirs(n) && src in n
    ensures var r := DirRun(order, n, src, dst, k);
      !r.Stopped? && (r.Ended? ==> AllDirs(r.nodes) && n.Keys <= r.nodes.Keys)
    decreases k, 0, 0
  {
    if k == 0 {
    } else {
      MkdirAmongDirs(n, dst);
      var m := MkdirRun(n, dst).value;
      EntriesList(order, m, src);
      EntriesStopNothing(order, m, src, dst, Entries(order, m, src), 0, k - 1);
    }
  }

  lemma {:induction false} EntriesStopNothing(
    order: Order, n: Nodes, src: Path, dst: Path, es: seq<Entry>, i: nat, k: nat)
    requires IsOrder(order) && AllDirs(n) && i <= |es|
    requires forall j | 0 <= j < |es| :: es[j].isDir && src + [es[j].name] in n
    ensures var r := EntriesRun(order, n, src, dst, es, i, k);
      !r.Stopped? && (r.Ended? ==> AllDirs(r.nodes) && n.Keys <= r.nodes.Keys)
    decreases k, 1, |es| - i
  {
    if i == |es| {
    } else {
      DirsStopNothing(order, n, src + [es[i].name], dst + [es[i].name], k);
      var r := EntryRun(order, n, src, dst, es[i], k);
      if r.Ended? {
        EntriesStopNothing(order, r.nodes, src, dst, es, i + 1, k);
      }
    }
  }

  /** `copyDir` comes back from every tree if and only if the destination is not strictly inside
      the source. */
  lemma ReturnsIff(order: Order, src: Path, dst: Path)
    requires IsOrder(order)
    ensures (forall n | IsTree(n) :: Returns(order, n, src, dst)) <==> !(src < dst)
  {
    if !(src < dst) {
      forall n | IsTree(n) ensures Returns(order, n, src, dst) {
        AlwaysReturns(order, n, src, dst);
      }
    } else {
      var root: Nodes := map[[] := Dir];
      MkdirAmongDirs(root, src);
      MkdirMeaning(root, src);
      MkdirAdds(root, src, src);
      var n := MkdirRun(root, src).value;
      forall k: nat ensures DirRun(order, n, src, dst, k) == TooDeep {
        DirsStopNothing(order, n, src, dst, k);
        NeverEnds(order, n, src, dst, k);
      }
      assert IsTree(n) && !Returns(order, n, src, dst);
    }
  }

  // ----- What a copy that does not disturb its source means, node by node -----

  /** Whatever the copy is going to write into its own source is there already. */
  ghost predicate Agrees(n: Nodes, src: Path, dst: Path) {
    forall q: Path | src + q in n && src <= dst + q :: Look(n, dst + q) == Some(n[src + q])
  }

  /** The copy goes onto itself, or somewhere where it does not change what it has still to read. */
  ghost predicate Undisturbed(n: Nodes, src: Path, dst: Path) {
    src == dst || (!(src <= dst) && Agrees(n, src, dst))
  }

  lemma DisjointUndisturbed(n: Nodes, src: Path, dst: Path)
    requires Disjoint(src, dst)
    ensures Undisturbed(n, src, dst)
  {
    forall q: Path ensures !(src <= dst + q) {
      assert dst <= dst + q;
      if src <= dst + q { Apart(src, dst, dst + q); }
    }
  }

  lemma ChildUndisturbed(n: Nodes, m: Nodes, src: Path, dst: Path, s: string)
    requires Undisturbed(n, src, dst) && SameBelow(n, m, src + [s])
    ensures Undisturbed(m, src + [s], dst + [s])
  {
    var a, d := src + [s], dst + [s];
    SameLast(src, dst, s);
    if src != dst {
      if a < d { ChildInside(src, dst, s); }
      assert !(a <= d);
      forall q: Path | a + q in m && a <= d + q ensures Look(m, d + q) == Some(m[a + q]) {
        var r := [s] + q;
        assert a + q == src + r && d + q == dst + r && src <= a && a <= a + q;
        assert Look(m, a + q) == Look(n, a + q) && Look(m, d + q) == Look(n, d + q);
        assert src <= dst + r;
      }
    }
  }

  /** What has been copied so far has changed nothing in the source. */
  lemma SourceSame(n: Nodes, m: Nodes, src: Path, dst: Path, seen: set<string>)
    requires src != dst && Undisturbed(n, src, dst) && HasDirResult(n, m, src, dst, seen)
    ensures SameBelow(n, m, src)
  {
    forall p: Path | src <= p ensures Look(m, p) == Look(n, p) {
      assert Look(m, p) == DirResult(n, src, dst, seen, p);
      assert p <= dst ==> src <= dst;
      if dst <= p {
        assert dst + p[|dst|..] == p;
      }
    }
  }

  ghost predicate SameBelow(n: Nodes, m: Nodes, a: Path) {
    forall q: Path | a <= q :: Look(m, q) == Look(n, q)
  }

  function NamesUpTo(entries: seq<Entry>, i: nat): set<string>
    requires i <= |entries|
  {
    set k | 0 <= k < i :: entries[k].name
  }

  lemma EntryAt(n: Nodes, src: Path, entries: seq<Entry>, names: set<string>, i: nat)
    requires i < |entries| && Lists(n, src, entries, names)
    ensures entries[i].name !in NamesUpTo(entries, i)
    ensures NamesUpTo(entries, i + 1) == NamesUpTo(entries, i) + {entries[i].name}
    ensures src + [entries[i].name] in n && entries[i].isDir == n[src + [entries[i].name]].Dir?
  {
  }

  lemma AllEntries(n: Nodes, src: Path, entries: seq<Entry>, names: set<string>)
    requires Lists(n, src, entries, names)
    ensures NamesUpTo(entries, |entries|) == names
  {
  }

  lemma EntriesOfSource(n: Nodes, m: Nodes, src: Path, dst: Path, entries: seq<Entry>)
    requires src in n && n[src].Dir? && Undisturbed(n, src, dst) && HasDirResult(n, m, src, dst, {})
    requires Names(m, src) == Names(n, src) && Lists(m, src, entries, Names(m, src))
    ensures Lists(n, src, entries, Names(n, src))
  {
    forall i | 0 <= i < |entries|
      ensures src + [entries[i].name] in n
      ensures entries[i].isDir == n[src + [entries[i].name]].Dir?
    {
      SourceKept(n, m, src, dst, {}, entries[i].name);
      assert Look(m, src + [entries[i].name]) == Look(n, src + [entries[i].name]);
    }
  }

  lemma DirectoryMade(n: Nodes, m: Nodes, src: Path, dst: Path)
    requires HasMkdirResult(n, m, dst)
    requires src in n && src in m && m[src].Dir? && Undisturbed(n, src, dst) && OnTheWay(n, m, dst)
    ensures HasDirResult(n, m, src, dst, {})
    ensures src in n && n[src].Dir? && Names(m, src) == Names(n, src)
  {
    assert Look(m, src) == Look(n, src);
    forall q: Path | src <= q ensures Look(m, q) == Look(n, q) {
      if q <= dst {
        assert src <= dst;
        assert q == src;
      }
    }
    forall s ensures s in Names(m, src) <==> s in Names(n, src) {
      if s in Names(m, src) {
        NameIsChild(m, src, s);
        assert Look(m, src + [s]) == Look(n, src + [s]);
        ChildIsName(n, src, s);
      }
      if s in Names(n, src) {
        NameIsChild(n, src, s);
        assert Look(m, src + [s]) == Look(n, src + [s]);
        ChildIsName(m, src, s);
      }
    }
  }

  /** Of the source nothing changes but, in a copy onto itself, what has been copied already. */
  lemma SourceKept(n: Nodes, m: Nodes, src: Path, dst: Path, seen: set<string>, s: string)
    requires src in n && n[src].Dir? && Undisturbed(n, src, dst) && s !in seen
    requires HasDirResult(n, m, src, dst, seen)
    ensures SameBelow(n, m, src + [s])
  {
    if src != dst { SourceSame(n, m, src, dst, seen); }
    forall q: Path | src + [s] <= q ensures Look(m, q) == Look(n, q) {
      assert src <= q && q[|src|] == s;
      assert Look(m, q) == DirResult(n, src, dst, seen, q);
    }
  }

  /** The loop over the entries, when the entries before `i` have been copied already. */
  lemma {:induction false} EntriesMeaning(
    order: Order, n: Nodes, m: Nodes, src: Path, dst: Path, es: seq<Entry>, i: nat, k: nat)
    requires IsOrder(order) && IsTree(n) && IsTree(m) && src in n && n[src].Dir?
    requires Undisturbed(n, src, dst) && i <= |es| && Lists(n, src, es, Names(n, src))
    requires HasDirResult(n, m, src, dst, NamesUpTo(es, i)) && EntriesRun(order, m, src, dst, es, i, k).Ended?
    ensures HasDirResult(n, EntriesRun(order, m, src, dst, es, i, k).nodes, src, dst, Names(n, src))
    decreases k, 1, |es| - i
  {
    if i == |es| {
      AllEntries(n, src, es, Names(n, src));
    } else {
      var r := EntryEnded(order, m, src, dst, es, i, k);
      EntryAt(n, src, es, Names(n, src), i);
      EntryGrows(order, m, src, dst, es[i], k);
      EntryMeaning(order, n, m, src, dst, NamesUpTo(es, i), es[i], k);
      EntriesMeaning(order, n, r, src, dst, es, i + 1, k);
    }
  }

  lemma EntryEnded(order: Order, m: Nodes, src: Path, dst: Path, es: seq<Entry>, i: nat, k: nat) returns (r: Nodes)
    requires i < |es| && EntriesRun(order, m, src, dst, es, i, k).Ended?
    ensures EntryRun(order, m, src, dst, es[i], k) == Ended(r)
    ensures EntriesRun(order, m, src, dst, es, i, k) == EntriesRun(order, r, src, dst, es, i + 1, k)
  {
    r := EntryRun(order, m, src, dst, es[i], k).nodes;
  }

  lemma {:induction false} EntryMeaning(
    order: Order, n: Nodes, m: Nodes, src: Path, dst: Path, seen: set<string>, e: Entry, k: nat)
    requires IsOrder(order) && IsTree(n) && IsTree(m) && src in n && n[src].Dir?
    requires Undisturbed(n, src, dst) && e.name !in seen
    requires src + [e.name] in n && e.isDir == n[src + [e.name]].Dir?
    requires HasDirResult(n, m, src, dst, seen) && EntryRun(order, m, src, dst, e, k).Ended?
    ensures HasDirResult(n, EntryRun(order, m, src, dst, e, k).nodes, src, dst, seen + {e.name})
    decreases k, 1, 0
  {
    var a, d := src + [e.name], dst + [e.name];
    SourceKept(n, m, src, dst, seen, e.name);
    assert Look(m, a) == Look(n, a);
    if e.isDir {
      ChildUndisturbed(n, m, src, dst, e.name);
      DirMeaning(order, m, a, d, k);
      DirEntryCopied(n, m, DirRun(order, m, a, d, k).nodes, src, dst, seen, e.name);
    } else {
      FileMeaning(m, a, d);
      FileEntryCopied(n, m, FileRun(m, a, d).value, src, dst, seen, e.name);
    }
  }

  /** What a successful copy of a directory leaves at every path, if it does not disturb its source. */
  lemma {:induction false} DirMeaning(order: Order, n: Nodes, src: Path, dst: Path, k: nat)
    requires IsOrder(order) && IsTree(n) && Undisturbed(n, src, dst)
    requires DirRun(order, n, src, dst, k).Ended?
    ensures src in n && n[src].Dir?
    ensures HasDirResult(n, DirRun(order, n, src, dst, k).nodes, src, dst, Names(n, src))
    decreases k, 0, 0
  {
    var m, es, room := DirUnfolds(order, n, src, dst, k);
    MkdirMeaning(n, dst);
    DirectoryMade(n, m, src, dst);
    EntriesList(order, m, src);
    EntriesOfSource(n, m, src, dst, es);
    EntriesMeaning(order, n, m, src, dst, es, 0, room);
  }

  lemma DirUnfolds(order: Order, n: Nodes, src: Path, dst: Path, k: nat)
    returns (m: Nodes, es: seq<Entry>, room: nat)
    requires DirRun(order, n, src, dst, k).Ended?
    ensures src in n && MkdirRun(n, dst) == Some(m) && Look(m, src) == Some(Dir)
    ensures es == Entries(order, m, src) && room < k
    ensures DirRun(order, n, src, dst, k) == EntriesRun(order, m, src, dst, es, 0, room)
  {
    m, room := MkdirRun(n, dst).value, k - 1;
    es := Entries(order, m, src);
  }

  lemma FileEntryCopied(n: Nodes, m: Nodes, m': Nodes, src: Path, dst: Path, seen: set<string>, s: string)
    requires IsTree(n) && HasDirResult(n, m, src, dst, seen) && s !in seen
    requires SameBelow(n, m, src + [s])
    requires src + [s] in n && n[src + [s]].File? && src + [s] in m
    requires HasFileResult(m, m', src + [s], dst + [s])
    ensures HasDirResult(n, m', src, dst, seen + {s})
  {
    forall p: Path ensures Look(m', p) == DirResult(n, src, dst, seen + {s}, p) {
      assert Look(m', p) == FileResult(m, src + [s], dst + [s], p);
      assert Look(m, p) == DirResult(n, src, dst, seen, p);
      assert Look(m, src + [s]) == Look(n, src + [s]);
      FileEntryAt(n, m, src, dst, seen, s, p);
    }
  }

  lemma FileEntryAt(n: Nodes, m: Nodes, src: Path, dst: Path, seen: set<string>, s: string, p: Path)
    requires IsTree(n) && Look(m, p) == DirResult(n, src, dst, seen, p) && s !in seen
    requires src + [s] in n && n[src + [s]].File? && Look(m, src + [s]) == Look(n, src + [s])
    ensures FileResult(m, src + [s], dst + [s], p) == DirResult(n, src, dst, seen + {s}, p)
  {
    var d := dst + [s];
    PrefixOfParent(p, d);
    assert Parent(d) == dst;
    if p == d {
      assert src + p[|dst|..] == src + [s];
      SameLast(src, dst, s);
    } else if d <= p {
      assert d < p;
      NothingBelowFile(n, src, dst, s, p);
    } else if dst <= p && p != dst {
      assert p[|dst|] == s ==> d <= p;
    }
  }

  lemma NothingBelowFile(n: Nodes, src: Path, dst: Path, s: string, p: Path)
    requires IsTree(n) && src + [s] in n && n[src + [s]].File?
    requires dst + [s] < p
    ensures p[|dst|] == s && src + p[|dst|..] !in n && !(p <= dst + [s])
  {
    var t := src + p[|dst|..];
    assert t == src + [s] + p[|dst| + 1..];
    if t in n {
      AncestorIsDir(n, t, src + [s]);
    }
  }

  lemma DirEntryCopied(n: Nodes, m: Nodes, m': Nodes, src: Path, dst: Path, seen: set<string>, s: string)
    requires IsTree(n) && HasDirResult(n, m, src, dst, seen) && s !in seen
    requires SameBelow(n, m, src + [s])
    requires src + [s] in n && n[src + [s]].Dir?
    requires HasDirResult(m, m', src + [s], dst + [s], Names(m, src + [s]))
    ensures HasDirResult(n, m', src, dst, seen + {s})
  {
    forall p: Path ensures Look(m', p) == DirResult(n, src, dst, seen + {s}, p) {
      assert Look(m', p) == DirResult(m, src + [s], dst + [s], Names(m, src + [s]), p);
      assert Look(m, p) == DirResult(n, src, dst, seen, p);
      DirEntryAt(n, m, src, dst, seen, s, p);
    }
  }

  lemma DirEntryAt(n: Nodes, m: Nodes, src: Path, dst: Path, seen: set<string>, s: string, p: Path)
    requires IsTree(n) && Look(m, p) == DirResult(n, src, dst, seen, p) && s !in seen
    requires SameBelow(n, m, src + [s])
    requires src + [s] in n && n[src + [s]].Dir?
    ensures DirResult(m, src + [s], dst + [s], Names(m, src + [s]), p) == DirResult(n, src, dst, seen + {s}, p)
  {
    var a, d := src + [s], dst + [s];
    PrefixOfParent(p, d);
    assert Parent(d) == dst;
    SameLast(src, dst, s);
    if p == d {
      assert src + p[|dst|..] == a;
    } else if d <= p {
      DirEntryInside(n, m, src, dst, seen, s, p);
    } else if dst <= p && p != dst {
      assert p[|dst|] == s ==> d <= p;
    }
  }

  lemma DirEntryInside(n: Nodes, m: Nodes, src: Path, dst: Path, seen: set<string>, s: string, p: Path)
    requires IsTree(n) && Look(m, p) == DirResult(n, src, dst, seen, p) && s !in seen
    requires SameBelow(n, m, src + [s])
    requires dst + [s] < p
    ensures DirResult(m, src + [s], dst + [s], Names(m, src + [s]), p) == DirResult(n, src, dst, seen + {s}, p)
  {
    var a, d := src + [s], dst + [s];
    var t := a + p[|d|..];
    SameLast(src, dst, s);
    InsideResult(n, m, src, dst, seen, s, p, t);
    assert Look(m, t) == Look(n, t);
    if t in n {
      FirstStep(a, p[|d|..]);
      ChildOnPath(n, a, p[|d|], t);
      assert Look(m, a + [p[|d|]]) == Look(n, a + [p[|d|]]);
      ChildIsName(m, a, p[|d|]);
    }
  }

  lemma InsideResult(n: Nodes, m: Nodes, src: Path, dst: Path, seen: set<string>, s: string, p: Path, t: Path)
    requires Look(m, p) == DirResult(n, src, dst, seen, p) && s !in seen
    requires dst + [s] < p && t == src + [s] + p[|dst| + 1..]
    ensures Look(m, p) == Look(n, p)
    ensures DirResult(n, src, dst, seen + {s}, p) == if t in n then Some(Copied(n[t], src == dst)) else Look(n, p)
  {
    assert p[|dst|] == s && |p| > |dst| + 1;
    assert t == src + p[|dst|..];
  }

  lemma EntryBelow(n: Nodes, src: Path, q: Path)
    requires IsTree(n) && src + q in n && q != []
    ensures q[0] in Names(n, src)
  {
    FirstStep(src, q);
    ChildOnPath(n, src, q[0], src + q);
    ChildIsName(n, src, q[0]);
  }

  /** After copying a directory elsewhere, its source undisturbed, the destination is the source
      laid over what was there, the source is as it was, and nothing else changed but directories
      on the way. */
  lemma DirectoryCopied(order: Order, n: Nodes, src: Path, dst: Path, k: nat)
    requires IsOrder(order) && IsTree(n) && src != dst && Undisturbed(n, src, dst)
    requires DirRun(order, n, src, dst, k).Ended?
    ensures var n' := DirRun(order, n, src, dst, k).nodes;
      && (forall q: Path :: Look(n', dst + q) == if src + q in n then Some(n[src + q]) else Look(n, dst + q))
      && SameBelow(n, n', src)
      && (forall p: Path | !(dst <= p) :: Look(n', p) == if p <= dst then Some(Dir) else Look(n, p))
  {
    DirMeaning(order, n, src, dst, k);
    var n' := DirRun(order, n, src, dst, k).nodes;
    SourceSame(n, n', src, dst, Names(n, src));
    forall q: Path ensures Look(n', dst + q) == if src + q in n then Some(n[src + q]) else Look(n, dst + q) {
      assert Look(n', dst + q) == DirResult(n, src, dst, Names(n, src), dst + q);
      assert (dst + q)[|dst|..] == q;
      if q == [] {
        assert src + q == src && dst + q == dst;
      } else if src + q in n {
        EntryBelow(n, src, q);
      }
    }
    forall p: Path | !(dst <= p) ensures Look(n', p) == if p <= dst then Some(Dir) else Look(n, p) {
      assert Look(n', p) == DirResult(n, src, dst, Names(n, src), p);
    }
  }

  /** Copying a directory onto itself empties every file in it and changes nothing else. */
  lemma CopiedOntoItself(order: Order, n: Nodes, src: Path, k: nat)
    requires IsOrder(order) && IsTree(n) && DirRun(order, n, src, src, k).Ended?
    ensures var n' := DirRun(order, n, src, src, k).nodes;
      forall q: Path :: Look(n', q) == if src <= q && q in n then Some(Copied(n[q], true)) else Look(n, q)
  {
    DirMeaning(order, n, src, src, k);
    var n' := DirRun(order, n, src, src, k).nodes;
    forall q: Path ensures Look(n', q) == if src <= q && q in n then Some(Copied(n[q], true)) else Look(n, q) {
      assert Look(n', q) == DirResult(n, src, src, Names(n, src), q);
      if src <= q {
        var t := q[|src|..];
        assert q == src + t;
        if t == [] {
          assert q == src;
        } else if q in n {
          EntryBelow(n, src, t);
        }
      } else if q <= src {
        AncestorIsDir(n, src, q);
      }
    }
  }

  // ----- When the source survives -----

  /** `x` is what is at `p` in one of two trees. */
  ghost predicate Either(x: Option<Node>, n: Nodes, n': Nodes, p: Path) { x == Look(n, p) || x == Look(n', p) }

  /** In a copy to another place everything in the source is copied, as it was at the start or as
      it is at the end: whatever the run changes, it changes at one turn of its loops only. */
  lemma {:induction false} DirCopies(order: Order, n: Nodes, src: Path, dst: Path, k: nat, q: Path)
    requires IsOrder(order) && IsTree(n) && src != dst && DirRun(order, n, src, dst, k).Ended? && src + q in n
    ensures var n' := DirRun(order, n, src, dst, k).nodes; Either(Look(n', dst + q), n, n', src + q)
    decreases k, 0, 0
  {
    var m, es, room := DirUnfolds(order, n, src, dst, k);
    MkdirGrows(n, dst);
    MkdirAdds(n, dst, src);
    MkdirAdds(n, dst, dst);
    MkdirAdds(n, dst, src + q);
    if q == [] {
      assert src + q == src && dst + q == dst;
      MkdirMeaning(n, dst);
      assert Look(m, dst) == MkdirResult(n, dst, dst);
      EntriesGrow(order, m, src, dst, es, 0, room);
    } else {
      var j := ListedAt(order, m, src, q);
      EntriesCopy(order, m, src, dst, es, 0, j, room, q);
    }
  }

  lemma ListedAt(order: Order, m: Nodes, src: Path, q: Path) returns (j: nat)
    requires IsOrder(order) && IsTree(m) && q != [] && src + q in m
    ensures var es := Entries(order, m, src); j < |es| && es[j].name == q[0] && NoneTwice(es)
  {
    var es := Entries(order, m, src);
    EntryBelow(m, src, q);
    EntriesList(order, m, src);
    j :| 0 <= j < |es| && es[j].name == q[0];
  }

  /** No name is listed twice. */
  ghost predicate NoneTwice(es: seq<Entry>) { forall i, j | 0 <= i < j < |es| :: es[i].name != es[j].name }

  /** Entries of other names leave a node below `dst + [s]` alone. */
  lemma {:induction false} EntriesSpare(
    order: Order, n: Nodes, src: Path, dst: Path, es: seq<Entry>, i: nat, k: nat, s: string, p: Path)
    requires IsTree(n) && p in n && dst + [s] <= p && i <= |es| && EntriesRun(order, n, src, dst, es, i, k).Ended?
    requires forall l | i <= l < |es| :: es[l].name != s
    ensures Look(EntriesRun(order, n, src, dst, es, i, k).nodes, p) == Look(n, p)
    decreases |es| - i
  {
    if i == |es| {
    } else {
      var r := EntryEnded(order, n, src, dst, es, i, k);
      EntryGrows(order, n, src, dst, es[i], k);
      assert p[|dst|] == s && (dst + [es[i].name])[|dst|] == es[i].name;
      assert !(dst + [es[i].name] <= p);
      EntriesSpare(order, r, src, dst, es, i + 1, k, s, p);
    }
  }

  lemma {:induction false} EntryCopies(order: Order, m: Nodes, src: Path, dst: Path, e: Entry, k: nat, q: Path)
    requires IsOrder(order) && IsTree(m) && src != dst && q != [] && q[0] == e.name && src + q in m
    requires EntryRun(order, m, src, dst, e, k).Ended?
    ensures var r := EntryRun(order, m, src, dst, e, k).nodes; Either(Look(r, dst + q), m, r, src + q)
    decreases k, 1, 0
  {
    var a, d, rest := src + [e.name], dst + [e.name], q[1..];
    assert src + q == a + rest && dst + q == d + rest;
    SameLast(src, dst, e.name);
    if e.isDir {
      DirCopies(order, m, a, d, k, rest);
    } else {
      FileMeaning(m, a, d);
      var r := FileRun(m, a, d).value;
      if rest != [] { AncestorIsDir(m, a + rest, a); }
      assert a + rest == a && d + rest == d;
      assert Look(r, d) == FileResult(m, a, d, d);
    }
  }

  lemma {:induction false} EntriesCopy(
    order: Order, m: Nodes, src: Path, dst: Path, es: seq<Entry>, i: nat, j: nat, k: nat, q: Path)
    requires IsOrder(order) && IsTree(m) && src != dst && i <= j < |es| && NoneTwice(es)
    requires q != [] && q[0] == es[j].name && src + q in m && EntriesRun(order, m, src, dst, es, i, k).Ended?
    ensures var n' := EntriesRun(order, m, src, dst, es, i, k).nodes; Either(Look(n', dst + q), m, n', src + q)
    decreases k, 1, j - i + 1
  {
    var r := EntryEnded(order, m, src, dst, es, i, k);
    var n', s := EntriesRun(order, m, src, dst, es, i, k).nodes, es[i].name;
    EntryGrows(order, m, src, dst, es[i], k);
    if dst + [s] <= src + q {
      EntriesSpare(order, r, src, dst, es, i + 1, k, s, src + q);
    }
    if i == j {
      EntryCopies(order, m, src, dst, es[j], k, q);
      CopyIsThere(order, m, r, src, dst, es[j], k, q);
      EntriesSpare(order, r, src, dst, es, i + 1, k, s, dst + q);
    } else {
      EntriesCopy(order, r, src, dst, es, i + 1, j, k, q);
    }
  }

  lemma CopyIsThere(order: Order, m: Nodes, r: Nodes, src: Path, dst: Path, e: Entry, k: nat, q: Path)
    requires Either(Look(r, dst + q), m, r, src + q) && src + q in m && NodesStay(m, r)
    requires q != [] && q[0] == e.name
    ensures dst + q in r && dst + [e.name] <= dst + q
  {
    FirstStep(dst, q);
  }

  /** A successful directory copy leaves its source alone exactly if, onto itself, there is nothing
      in its files and, to another place, whatever it writes into its source is there already. */
  lemma SourceSurvivesIff(order: Order, n: Nodes, src: Path, dst: Path, k: nat)
    requires IsOrder(order) && IsTree(n) && DirRun(order, n, src, dst, k).Ended?
    ensures SameBelow(n, DirRun(order, n, src, dst, k).nodes, src) <==>
      if src == dst then forall q: Path | src <= q && q in n :: n[q] == Dir || n[q] == File("")
      else Agrees(n, src, dst)
  {
    if src == dst {
      SurvivesItself(order, n, src, k);
    } else {
      if src < dst { NeverEnds(order, n, src, dst, k); }
      var n' := DirRun(order, n, src, dst, k).nodes;
      if Agrees(n, src, dst) {
        assert !(src <= dst) || src < dst;
        DirectoryCopied(order, n, src, dst, k);
      }
      if SameBelow(n, n', src) {
        forall q: Path | src + q in n && src <= dst + q ensures Look(n, dst + q) == Some(n[src + q]) {
          DirCopies(order, n, src, dst, k, q);
          assert src <= src + q;
        }
      }
    }
  }

  lemma SurvivesItself(order: Order, n: Nodes, src: Path, k: nat)
    requires IsOrder(order) && IsTree(n) && DirRun(order, n, src, src, k).Ended?
    ensures SameBelow(n, DirRun(order, n, src, src, k).nodes, src)
       <==> forall q: Path | src <= q && q in n :: n[q] == Dir || n[q] == File("")
  {
    var n' := DirRun(order, n, src, src, k).nodes;
    CopiedOntoItself(order, n, src, k);
    if SameBelow(n, n', src) {
      forall q: Path | src <= q && q in n ensures n[q] == Dir || n[q] == File("") {
        assert Look(n', q) == Look(n, q);
      }
    }
  }

  // ----- When a copy succeeds -----

  /** No file is in the way of the directory `dst`. */
  ghost predicate Clear(n: Nodes, dst: Path) { forall q | q in n && q <= dst :: n[q].Dir? }

  /** No directory meets a file. */
  ghost predicate SameKinds(n: Nodes, src: Path, dst: Path) {
    forall q: Path | src + q in n && dst + q in n :: n[src + q].Dir? == n[dst + q].Dir?
  }

  lemma {:induction false} MkdirClear(n: Nodes, p: Path)
    requires IsTree(n)
    ensures MkdirRun(n, p).Some? <==> Clear(n, p)
    decreases |p|
  {
    if p in n {
      forall q | q in n && q <= p && n[p].Dir? ensures n[q].Dir? {
        if q != p {
          assert q < p;
          AncestorIsDir(n, p, q);
        }
      }
    } else {
      MkdirClear(n, Parent(p));
      forall q ensures q in n && q <= p <==> q in n && q <= Parent(p) {
        PrefixOfParent(q, p);
      }
    }
  }

  lemma {:induction false} DirGoesOn(order: Order, n: Nodes, src: Path, dst: Path, k: nat)
    requires IsOrder(order) && IsTree(n) && Undisturbed(n, src, dst)
    requires Look(n, src) == Some(Dir) && Clear(n, dst) && SameKinds(n, src, dst)
    ensures !DirRun(order, n, src, dst, k).Stopped?
    decreases k, 0, 0
  {
    if k == 0 {
    } else {
      MkdirClear(n, dst);
      var m := MkdirRun(n, dst).value;
      MkdirMeaning(n, dst);
      MkdirAdds(n, dst, src);
      DirectoryMade(n, m, src, dst);
      EntriesList(order, m, src);
      EntriesOfSource(n, m, src, dst, Entries(order, m, src));
      EntriesGoOn(order, n, m, src, dst, Entries(order, m, src), 0, k - 1);
    }
  }

  lemma {:induction false} EntriesGoOn(
    order: Order, n: Nodes, m: Nodes, src: Path, dst: Path, es: seq<Entry>, i: nat, k: nat)
    requires IsOrder(order) && IsTree(n) && IsTree(m) && Look(n, src) == Some(Dir)
    requires Undisturbed(n, src, dst) && SameKinds(n, src, dst) && i <= |es| && Lists(n, src, es, Names(n, src))
    requires HasDirResult(n, m, src, dst, NamesUpTo(es, i))
    ensures !EntriesRun(order, m, src, dst, es, i, k).Stopped?
    decreases k, 1, |es| - i
  {
    if i == |es| {
    } else {
      EntryAt(n, src, es, Names(n, src), i);
      EntryGoesOn(order, n, m, src, dst, NamesUpTo(es, i), es[i], k);
      EntriesNext(order, m, src, dst, es, i, k);
      var r := EntryRun(order, m, src, dst, es[i], k);
      if r.Ended? {
        EntryGrows(order, m, src, dst, es[i], k);
        EntryMeaning(order, n, m, src, dst, NamesUpTo(es, i), es[i], k);
        EntriesGoOn(order, n, r.nodes, src, dst, es, i + 1, k);
      }
    }
  }

  lemma {:induction false} EntryGoesOn(
    order: Order, n: Nodes, m: Nodes, src: Path, dst: Path, seen: set<string>, e: Entry, k: nat)
    requires IsOrder(order) && IsTree(n) && IsTree(m) && Look(n, src) == Some(Dir)
    requires Undisturbed(n, src, dst) && SameKinds(n, src, dst) && e.name !in seen
    requires src + [e.name] in n && e.isDir == n[src + [e.name]].Dir? && HasDirResult(n, m, src, dst, seen)
    ensures !EntryRun(order, m, src, dst, e, k).Stopped?
    decreases k, 1, 0
  {
    var a, d := src + [e.name], dst + [e.name];
    SourceKept(n, m, src, dst, seen, e.name);
    assert Look(m, a) == Look(n, a);
    NotReached(n, m, src, dst, seen, e.name, []);
    assert d + [] == d && a + [] == a && src + [e.name] + [] == a;
    assert Look(m, dst) == DirResult(n, src, dst, seen, dst);
    if e.isDir {
      ChildUndisturbed(n, m, src, dst, e.name);
      StillClear(n, m, src, dst, seen, e.name);
      StillSameKinds(n, m, src, dst, seen, e.name);
      DirGoesOn(order, m, a, d, k);
    } else {
      assert Parent(d) == dst;
    }
  }

  /** Before its turn nothing has changed below an entry's destination. */
  lemma NotReached(n: Nodes, m: Nodes, src: Path, dst: Path, seen: set<string>, s: string, r: Path)
    requires HasDirResult(n, m, src, dst, seen) && s !in seen && SameKinds(n, src, dst)
    ensures Look(m, dst + [s] + r) == Look(n, dst + [s] + r)
    ensures src + [s] + r in n && dst + [s] + r in n ==> n[src + [s] + r].Dir? == n[dst + [s] + r].Dir?
  {
    var p := dst + [s] + r;
    assert p[|dst|] == s && dst <= p && !(p <= dst);
    assert Look(m, p) == DirResult(n, src, dst, seen, p);
    var q := [s] + r;
    assert src + q == src + [s] + r && dst + q == p;
  }

  lemma StillClear(n: Nodes, m: Nodes, src: Path, dst: Path, seen: set<string>, s: string)
    requires HasDirResult(n, m, src, dst, seen) && s !in seen && SameKinds(n, src, dst)
    requires src + [s] in n && n[src + [s]].Dir?
    ensures Clear(m, dst + [s])
  {
    var d := dst + [s];
    NotReached(n, m, src, dst, seen, s, []);
    assert d + [] == d && src + [s] + [] == src + [s];
    forall q | q in m && q <= d ensures m[q].Dir? {
      PrefixOfParent(q, d);
      assert Parent(d) == dst;
      assert Look(m, q) == DirResult(n, src, dst, seen, q);
    }
  }

  lemma StillSameKinds(n: Nodes, m: Nodes, src: Path, dst: Path, seen: set<string>, s: string)
    requires HasDirResult(n, m, src, dst, seen) && s !in seen && SameKinds(n, src, dst)
    requires SameBelow(n, m, src + [s])
    ensures SameKinds(m, src + [s], dst + [s])
  {
    var a, d := src + [s], dst + [s];
    forall r: Path | a + r in m && d + r in m ensures m[a + r].Dir? == m[d + r].Dir? {
      NotReached(n, m, src, dst, seen, s, r);
      assert a <= a + r;
      assert Look(m, a + r) == Look(n, a + r);
    }
  }

  /** If it does not disturb its source, a directory copy that no I/O error stops succeeds exactly
      if the source is a directory, no file is in the way of the destination, and no directory is
      to be copied onto a file or a file onto a directory. */
  lemma SucceedsIff(order: Order, n: Nodes, src: Path, dst: Path)
    requires IsOrder(order) && IsTree(n) && Undisturbed(n, src, dst)
    ensures (exists k: nat :: DirRun(order, n, src, dst, k).Ended?)
       <==> Look(n, src) == Some(Dir) && Clear(n, dst) && SameKinds(n, src, dst)
  {
    if Look(n, src) == Some(Dir) && Clear(n, dst) && SameKinds(n, src, dst) {
      AlwaysReturns(order, n, src, dst);
      var k: nat :| DirRun(order, n, src, dst, k) != TooDeep;
      DirGoesOn(order, n, src, dst, k);
      assert DirRun(order, n, src, dst, k).Ended?;
    }
    if k: nat :| DirRun(order, n, src, dst, k).Ended? {
      SuccessNeeds(order, n, src, dst, k);
    }
  }

  /** A file copy that no I/O error stops succeeds exactly if the source is a file, and neither the
      destination is a directory nor a file is on the way to it. */
  lemma FileSucceedsIff(n: Nodes, src: Path, dst: Path)
    requires IsTree(n)
    ensures FileRun(n, src, dst).Some?
       <==> src in n && n[src].File? && Look(n, dst) != Some(Dir) && Clear(n, Parent(dst))
  {
    MkdirClear(n, Parent(dst));
  }

  lemma SuccessNeeds(order: Order, n: Nodes, src: Path, dst: Path, k: nat)
    requires IsOrder(order) && IsTree(n) && Undisturbed(n, src, dst) && DirRun(order, n, src, dst, k).Ended?
    ensures Look(n, src) == Some(Dir) && Clear(n, dst) && SameKinds(n, src, dst)
  {
    DirMeaning(order, n, src, dst, k);
    MkdirClear(n, dst);
    if src != dst {
      DirectoryCopied(order, n, src, dst, k);
      DirGrows(order, n, src, dst, k);
      var n' := DirRun(order, n, src, dst, k).nodes;
      forall q: Path | src + q in n && dst + q in n ensures n[src + q].Dir? == n[dst + q].Dir? {
        assert Look(n', dst + q) == Some(n[src + q]);
      }
    }
  }

  // ----- Copies that do damage -----

  /** A directory with one file, copied onto itself: the copy succeeds and the file is empty. */
  lemma SelfCopyEmpties() returns (order: Order, n: Nodes, k: nat)
    ensures IsOrder(order) && IsTree(n) && Look(n, ["a", "f"]) == Some(File("x"))
    ensures var r := DirRun(order, n, ["a"], ["a"], k); r.Ended? && Look(r.nodes, ["a", "f"]) == Some(File(""))
  {
    OrdersExist();
    order :| IsOrder(order);
    n := map[[] := Dir, ["a"] := Dir, ["a", "f"] := File("x")];
    assert Parent([]) == [] && Parent(["a"]) == [] && Parent(["a", "f"]) == ["a"];
    assert IsTree(n);
    assert Clear(n, ["a"]);
    SucceedsIff(order, n, ["a"], ["a"]);
    k :| DirRun(order, n, ["a"], ["a"], k).Ended?;
    CopiedOntoItself(order, n, ["a"], k);
    assert ["a"] <= ["a", "f"];
  }

  /** A directory copied to the one it is in: the copy succeeds and has added to its source. */
  lemma OutwardCopyAdds() returns (order: Order, n: Nodes, k: nat)
    ensures IsOrder(order) && IsTree(n)
    ensures var r := DirRun(order, n, ["a", "b"], ["a"], k); r.Ended? && !SameBelow(n, r.nodes, ["a", "b"])
  {
    OrdersExist();
    order :| IsOrder(order);
    var root: Nodes, deep := map[[] := Dir], ["a", "b", "b", "y"];
    MkdirAmongDirs(root, deep);
    assert Parent([]) == [];
    MkdirMeaning(root, deep);
    n := MkdirRun(root, deep).value;
    var src, dst, q := ["a", "b"], ["a"], ["b", "y"];
    assert Look(n, src) == MkdirResult(root, deep, src) && src <= deep;
    assert Look(n, deep) == MkdirResult(root, deep, deep);
    assert Look(n, ["a", "b", "y"]) == MkdirResult(root, deep, ["a", "b", "y"]);
    AlwaysReturns(order, n, src, dst);
    k :| DirRun(order, n, src, dst, k) != TooDeep;
    DirsStopNothing(order, n, src, dst, k);
    assert src + q == deep && dst + q == ["a", "b", "y"] && src <= dst + q;
    assert !(["a", "b", "y"] <= deep) by { assert deep[2] == "b" && "b" != "y"; }
    assert src + q in n && Look(n, dst + q) == None;
    assert !Agrees(n, src, dst);
    SourceSurvivesIff(order, n, src, dst, k);
  }

  /** The same for a single file: the copy equals what the source was, and the source is what it
      was, exactly if it was not copied onto itself or was empty. */
  lemma FileSurvivesIff(n: Nodes, src: Path, dst: Path)
    requires IsTree(n) && FileRun(n, src, dst).Some?
    ensures var n' := FileRun(n, src, dst).value;
      && (Look(n', dst) == Look(n, src) <==> src != dst || n[src] == File(""))
      && (Look(n', src) == Look(n, src) <==> src != dst || n[src] == File(""))
  {
    FileMeaning(n, src, dst);
    var n' := FileRun(n, src, dst).value;
    assert Look(n', src) == FileResult(n, src, dst, src) && Look(n', dst) == FileResult(n, src, dst, dst);
  }
}
