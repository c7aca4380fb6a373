/**
  Mutations through a bind view.

  A host tree is a map from paths to nodes; `GuestLook` is the tree a guest sees through a
  view. The lemmas compare one host call at the resolved path with the same call made on the
  guest's own tree. Links can be made, moved and removed, but no call follows one.
 */
module HostView {
  import opened Errno
  import opened Wrappers
  import opened Paths
  import opened Bind

  datatype Node = Dir | File(data: Bytes) | Link(target: Bytes)

  type Tree = map<Path, Node>

  datatype Op = Mkdir | Unlink | Rmdir | Create(exclusive: bool) | Symlink(target: Bytes) | Truncate(length: int)

  function Look(t: Tree, p: Path): Option<Node> {
    if p in t then Some(t[p]) else None
  }

  function GuestLook(v: View, t: Tree, p: Path): Option<Node> {
    Look(t, Resolve(v, p))
  }

  function Host(t: Tree): Path -> Option<Node> {
    p => Look(t, p)
  }

  function Guest(v: View, t: Tree): Path -> Option<Node> {
    p => GuestLook(v, t, p)
  }

  // ----- One call on a tree -----

  /** The first error met while entering the directories from `root` towards `root ++ q`. */
  function Walk(look: Path -> Option<Node>, root: Path, q: Path): Option<int>
    decreases |q|
  {
    if q == [] then None
    else match look(root)
      case None => Some(ENOENT)
      case Some(File(_)) => Some(ENOTDIR)
      case Some(Link(_)) => Some(ELOOP)
      case Some(Dir) => Walk(look, root + [q[0]], q[1..])
  }

  /**
    What a call at `root ++ q` does in the tree that starts at `root`: the node it
    leaves there, or its error. `empty` says whether the directory has no entries.
   */
  function Perform(look: Path -> Option<Node>, root: Path, q: Path, empty: bool, op: Op): Result<Option<Node>, int> {
    match (RefusedAtOnce(op), Walk(look, root, q))
    case (Some(errno), _) => Err(errno)
    case (None, Some(errno)) => Err(errno)
    case (None, None) => PerformOn(look(root + q), q == [], empty, op)
  }

  /** Arguments that no tree accepts. */
  function RefusedAtOnce(op: Op): Option<int> {
    match op
    case Symlink(target) => if target == [] then Some(ENOENT) else None
    case Truncate(length) => if length < 0 then Some(EINVAL) else None
    case _ => None
  }

  /** The first `n` bytes of a file, padded with zeros. */
  function Resized(data: Bytes, n: nat): Bytes {
    if n <= |data| then data[..n] else data + seq(n - |data|, _ => 0)
  }

  /** What a call leaves of the node it finds; `top` says that this is the root of the tree. */
  function PerformOn(found: Option<Node>, top: bool, empty: bool, op: Op): Result<Option<Node>, int> {
    match op
    case Mkdir => if found.None? then Ok(Some(Dir)) else Err(EEXIST)
    case Symlink(target) => if found.None? then Ok(Some(Link(target))) else Err(EEXIST)
    case Unlink =>
      if found.None? then Err(ENOENT) else if found.value.Dir? then Err(EISDIR) else Ok(None)
    case Rmdir =>
      if found.None? then Err(ENOENT)
      else if !found.value.Dir? then Err(ENOTDIR)
      else if top then Err(EBUSY)
      else if empty then Ok(None) else Err(ENOTEMPTY)
    case Create(exclusive) =>
      if found.None? then Ok(Some(File([])))
      else if exclusive then Err(EEXIST)
      else if found.value.Dir? then Err(EISDIR)
      else if found.value.Link? then Err(ELOOP) else Ok(found)
    case Truncate(length) =>
      if found.None? then Err(ENOENT)
      else if found.value.Dir? then Err(EISDIR)
      else if found.value.Link? then Err(ELOOP)
      else Ok(Some(File(Resized(found.value.data, if length < 0 then 0 else length))))
  }

  function SetNode(t: Tree, p: Path, n: Option<Node>): Tree {
    match n
    case None => t - {p}
    case Some(node) => t[p := node]
  }

  predicate HostEmpty(t: Tree, h: Path) {
    forall x :: x in t ==> !(h <= x && |x| == |h| + 1)
  }

  ghost predicate GuestEmpty(v: View, t: Tree, p: Path) {
    forall c: Bytes :: GuestLook(v, t, p + [c]).None?
  }

  function HostPerform(t: Tree, h: Path, op: Op): Result<Tree, int> {
    match Perform(Host(t), [], h, HostEmpty(t, h), op)
    case Ok(n) => Ok(SetNode(t, h, n))
    case Err(errno) => Err(errno)
  }

  /** The guest's own answer, in the tree mounted at the destination of `p`. */
  ghost function GuestPerform(v: View, t: Tree, p: Path, op: Op): Result<Option<Node>, int>
    requires Projects(v, p)
  {
    var d := v[ProjectionIndex(v, p).value].destination;
    Perform(Guest(v, t), d, p[|d|..], GuestEmpty(v, t, p), op)
  }

  /** `rename` of the subtree at `a` onto `b`, in the tree that starts at `root`. */
  function RenameError(look: Path -> Option<Node>, root: Path, a: Path, b: Path, empty: bool): Option<int> {
    match (Walk(look, root, a), Walk(look, root, b), look(root + a))
    case (Some(errno), _, _) => Some(errno)
    case (None, Some(errno), _) => Some(errno)
    case (None, None, None) => Some(ENOENT)
    case (None, None, Some(n)) =>
      if a == b then None
      else if a <= b then Some(EINVAL)
      else if b <= a then Some(ENOTEMPTY)
      else if look(root + b).None? then None
      else if !n.Dir? then if look(root + b).value.Dir? then Some(EISDIR) else None
      else if !look(root + b).value.Dir? then Some(ENOTDIR)
      else if empty then None else Some(ENOTEMPTY)
  }

  function MoveTree(t: Tree, a: Path, b: Path): Tree {
    var moved := set p | p in t && a <= p :: b + p[|a|..];
    (map p | p in t && !(a <= p) && !(b <= p) :: t[p])
    + (map p | p in moved && b <= p && a + p[|b|..] in t :: t[a + p[|b|..]])
  }

  function HostRename(t: Tree, a: Path, b: Path): Result<Tree, int> {
    match RenameError(Host(t), [], a, b, HostEmpty(t, b))
    case Some(errno) => Err(errno)
    case None => Ok(if a == b then t else MoveTree(t, a, b))
  }

  // ----- Refinement -----

  /** The source of the projection is an existing directory, as `open` left it. */
  ghost predicate SourceMounted(t: Tree, source: Path) {
    Walk(Host(t), [], source).None? && Look(t, source) == Some(Dir)
  }

  lemma {:induction false} WalkSplit(look: Path -> Option<Node>, root: Path, a: Path, b: Path)
    ensures Walk(look, root, a + b) ==
            if Walk(look, root, a).Some? then Walk(look, root, a) else Walk(look, root + a, b)
    decreases |a|
  {
    if a == [] {
      assert a + b == b && root + a == root;
    } else {
      assert (a + b)[0] == a[0] && (a + b)[1..] == a[1..] + b;
      assert root + [a[0]] + a[1..] == root + a;
      WalkSplit(look, root + [a[0]], a[1..], b);
    }
  }

  /** Every path between a destination and `p` is served by the same projection as `p`. */
  lemma SelectBetween(v: View, p: Path, x: Path)
    requires Ordered(v) && Projects(v, p)
    requires v[ProjectionIndex(v, p).value].destination <= x <= p
    ensures ProjectionIndex(v, x) == ProjectionIndex(v, p)
    ensures Resolve(v, x) == v[ProjectionIndex(v, p).value].source + x[|v[ProjectionIndex(v, p).value].destination|..]
  {
    var i := ProjectionIndex(v, p).value;
    ReservedBelow(v[i].destination, x[|v[i].destination|..]);
    assert v[i].destination + x[|v[i].destination|..] == x;
    IndexIsLongest(v, p);
    IndexIsLongest(v, x);
    var j := ProjectionIndex(v, x).value;
    assert v[j].destination <= p;
  }

  /** Above `p`, and below its destination, guest and host paths have the same node. */
  lemma NodeOnTheWay(v: View, t: Tree, p: Path, k: nat)
    requires Ordered(v) && Projects(v, p)
    requires |v[ProjectionIndex(v, p).value].destination| + k <= |p|
    ensures var pr := v[ProjectionIndex(v, p).value];
            Guest(v, t)(pr.destination + p[|pr.destination|..][..k]) == Host(t)(pr.source + p[|pr.destination|..][..k])
  {
    var pr := v[ProjectionIndex(v, p).value];
    var x := pr.destination + p[|pr.destination|..][..k];
    assert pr.destination <= x <= p;
    SelectBetween(v, p, x);
    assert x[|pr.destination|..] == p[|pr.destination|..][..k];
  }

  /** Entering directories in the guest tree is entering them below the source. */
  lemma {:induction false} GuestWalk(v: View, t: Tree, p: Path, k: nat)
    requires Ordered(v) && Projects(v, p)
    requires |v[ProjectionIndex(v, p).value].destination| + k <= |p|
    ensures var pr := v[ProjectionIndex(v, p).value];
            var q := p[|pr.destination|..];
            Walk(Guest(v, t), pr.destination + q[..k], q[k..])
            == Walk(Host(t), pr.source + q[..k], q[k..])
    decreases |p| - k
  {
    var pr := v[ProjectionIndex(v, p).value];
    var q := p[|pr.destination|..];
    if k < |q| {
      NodeOnTheWay(v, t, p, k);
      assert q[k..][1..] == q[k + 1..];
      assert pr.destination + q[..k] + [q[k]] == pr.destination + q[..k + 1];
      assert pr.source + q[..k] + [q[k]] == pr.source + q[..k + 1];
      GuestWalk(v, t, p, k + 1);
    }
  }

  lemma GuestWalkWhole(v: View, t: Tree, p: Path)
    requires Ordered(v) && Projects(v, p)
    requires SourceMounted(t, v[ProjectionIndex(v, p).value].source)
    ensures var pr := v[ProjectionIndex(v, p).value];
            Walk(Guest(v, t), pr.destination, p[|pr.destination|..])
            == Walk(Host(t), [], Resolve(v, p))
  {
    var pr := v[ProjectionIndex(v, p).value];
    var q := p[|pr.destination|..];
    GuestWalk(v, t, p, 0);
    assert pr.destination + q[..0] == pr.destination && pr.source + q[..0] == pr.source && q[0..] == q;
    WalkSplit(Host(t), [], pr.source, q);
    assert [] + pr.source == pr.source;
  }

  /** A destination is a direct child of `p`. */
  ghost predicate NestedChild(v: View, p: Path) {
    exists m :: 0 <= m < |v| && p <= v[m].destination && |v[m].destination| == |p| + 1
  }

  lemma ChildSelection(v: View, p: Path, c: Bytes)
    requires Ordered(v) && Projects(v, p)
    ensures Projects(v, p + [c])
    ensures var m := ProjectionIndex(v, p + [c]).value;
            if m == ProjectionIndex(v, p).value then Resolve(v, p + [c]) == Resolve(v, p) + [c]
            else v[m].destination == p + [c] && Resolve(v, p + [c]) == v[m].source
  {
    var i := ProjectionIndex(v, p).value;
    var x := p + [c];
    ReservedBelow(p, [c]);
    assert v[i].destination <= x;
    IndexIsLongest(v, x);
    IndexIsLongest(v, p);
    var m := ProjectionIndex(v, x).value;
    if m == i {
      assert x[|v[i].destination|..] == p[|v[i].destination|..] + [c];
    } else {
      if |v[m].destination| > |p| {
        assert v[m].destination == x;
      }
    }
  }

  lemma ChildVisible(v: View, t: Tree, p: Path, c: Bytes)
    requires Ordered(v) && Projects(v, p)
    requires forall m :: 0 <= m < |v| ==> v[m].source in t
    ensures GuestLook(v, t, p + [c]).Some? <==>
            (ProjectionIndex(v, p + [c]) == ProjectionIndex(v, p) ==> Resolve(v, p) + [c] in t)
    ensures ProjectionIndex(v, p + [c]) != ProjectionIndex(v, p) ==> NestedChild(v, p)
  {
    ChildSelection(v, p, c);
  }

  lemma NestedChildVisible(v: View, t: Tree, p: Path)
    requires Ordered(v) && Projects(v, p) && NestedChild(v, p)
    requires forall m :: 0 <= m < |v| ==> v[m].source in t
    ensures !GuestEmpty(v, t, p)
  {
    var m :| 0 <= m < |v| && p <= v[m].destination && |v[m].destination| == |p| + 1;
    var c := v[m].destination[|p|];
    assert v[m].destination == p + [c];
    IndexIsLongest(v, p + [c]);
    ChildVisible(v, t, p, c);
  }

  lemma HostChildVisible(v: View, t: Tree, p: Path)
    requires Ordered(v) && Projects(v, p) && !HostEmpty(t, Resolve(v, p))
    requires forall m :: 0 <= m < |v| ==> v[m].source in t
    ensures !GuestEmpty(v, t, p)
  {
    var h := Resolve(v, p);
    var x :| x in t && h <= x && |x| == |h| + 1;
    assert x == h + [x[|h|]];
    ChildVisible(v, t, p, x[|h|]);
  }

  /** The guest sees an empty directory exactly when the host one is empty and no bind hangs below it. */
  lemma EmptinessAgrees(v: View, t: Tree, p: Path)
    requires Ordered(v) && Projects(v, p)
    requires forall m :: 0 <= m < |v| ==> v[m].source in t
    ensures GuestEmpty(v, t, p) <==> HostEmpty(t, Resolve(v, p)) && !NestedChild(v, p)
  {
    if NestedChild(v, p) {
      NestedChildVisible(v, t, p);
    } else if !HostEmpty(t, Resolve(v, p)) {
      HostChildVisible(v, t, p);
    } else {
      forall c: Bytes ensures GuestLook(v, t, p + [c]).None? {
        ChildVisible(v, t, p, c);
        var x := Resolve(v, p) + [c];
        assert Resolve(v, p) <= x;
      }
    }
  }

  /** Every destination directly below `p` is also an entry of the host directory. */
  ghost predicate BindsListed(v: View, t: Tree, p: Path) {
    forall m :: 0 <= m < |v| && p <= v[m].destination && |v[m].destination| == |p| + 1 ==>
                  Resolve(v, p) + [v[m].destination[|p|]] in t
  }

  lemma ListedChild(v: View, t: Tree, p: Path, c: Bytes)
    requires Ordered(v) && Projects(v, p) && BindsListed(v, t, p)
    requires forall m :: 0 <= m < |v| ==> v[m].source in t
    ensures Resolve(v, p) + [c] in t <==> GuestLook(v, t, p + [c]).Some?
  {
    ChildVisible(v, t, p, c);
    ChildSelection(v, p, c);
    var m := ProjectionIndex(v, p + [c]).value;
    if m != ProjectionIndex(v, p).value {
      assert v[m].destination[|p|] == c;
    }
  }

  /** The entries of the host directory are the guest's own exactly when every bind below has a host entry too. */
  lemma ListingAgreesExactly(v: View, t: Tree, p: Path)
    requires Ordered(v) && Projects(v, p)
    requires forall m :: 0 <= m < |v| ==> v[m].source in t
    ensures (forall c: Bytes :: Resolve(v, p) + [c] in t <==> GuestLook(v, t, p + [c]).Some?) <==> BindsListed(v, t, p)
  {
    if BindsListed(v, t, p) {
      forall c: Bytes ensures Resolve(v, p) + [c] in t <==> GuestLook(v, t, p + [c]).Some? {
        ListedChild(v, t, p, c);
      }
    } else {
      var m :| 0 <= m < |v| && p <= v[m].destination && |v[m].destination| == |p| + 1
               && Resolve(v, p) + [v[m].destination[|p|]] !in t;
      var c := v[m].destination[|p|];
      assert v[m].destination == p + [c];
      IndexIsLongest(v, p + [c]);
      ChildVisible(v, t, p, c);
    }
  }

  /** Within one projection, different guest paths are different host paths. */
  lemma ResolveInjective(v: View, p: Path, x: Path)
    requires SameProjection(v, p, x)
    ensures Resolve(v, p) == Resolve(v, x) <==> p == x
  {
    var pr := v[ProjectionIndex(v, p).value];
    if Resolve(v, p) == Resolve(v, x) {
      assert p == pr.destination + p[|pr.destination|..];
      assert x == pr.destination + x[|pr.destination|..];
      assert p[|pr.destination|..] == Resolve(v, p)[|pr.source|..];
      assert x[|pr.destination|..] == Resolve(v, x)[|pr.source|..];
    }
  }

  lemma HostAt(t: Tree, h: Path)
    ensures Host(t)([] + h) == Look(t, h)
  {
    assert [] + h == h;
  }

  lemma GuestAt(v: View, t: Tree, d: Path, p: Path)
    requires d <= p
    ensures Guest(v, t)(d + p[|d|..]) == Look(t, Resolve(v, p))
  {
    assert d + p[|d|..] == p;
  }

  /** The call reaches and finds the same nodes in both trees. */
  lemma SameNodes(v: View, t: Tree, p: Path)
    requires Ordered(v) && Projects(v, p)
    requires SourceMounted(t, v[ProjectionIndex(v, p).value].source)
    ensures var d := v[ProjectionIndex(v, p).value].destination;
            && Walk(Guest(v, t), d, p[|d|..]) == Walk(Host(t), [], Resolve(v, p))
            && Guest(v, t)(d + p[|d|..]) == Host(t)([] + Resolve(v, p)) == Look(t, Resolve(v, p))
  {
    GuestWalkWhole(v, t, p);
    HostAt(t, Resolve(v, p));
    GuestAt(v, t, v[ProjectionIndex(v, p).value].destination, p);
  }

  lemma {:induction false} SamePerform(look: Path -> Option<Node>, root: Path, q: Path, empty: bool,
                    look': Path -> Option<Node>, root': Path, q': Path, empty': bool, op: Op)
    requires Walk(look, root, q) == Walk(look', root', q') && look(root + q) == look'(root' + q')
    requires q != [] && q' != [] && (op == Rmdir ==> empty == empty')
    ensures Perform(look, root, q, empty, op) == Perform(look', root', q', empty', op)
  {
  }

  lemma AnswersAgree(v: View, t: Tree, p: Path, op: Op)
    requires Ordered(v) && Projects(v, p)
    requires v[ProjectionIndex(v, p).value].destination != p
    requires SourceMounted(t, v[ProjectionIndex(v, p).value].source)
    requires op == Rmdir ==> !NestedChild(v, p) && forall m :: 0 <= m < |v| ==> v[m].source in t
    ensures GuestPerform(v, t, p, op) == Perform(Host(t), [], Resolve(v, p), HostEmpty(t, Resolve(v, p)), op)
  {
    SameNodes(v, t, p);
    if op == Rmdir {
      EmptinessAgrees(v, t, p);
    }
    var d := v[ProjectionIndex(v, p).value].destination;
    var h := Resolve(v, p);
    assert p[|d|..] != [] && h != [];
    SamePerform(Guest(v, t), d, p[|d|..], GuestEmpty(v, t, p), Host(t), [], h, HostEmpty(t, h), op);
  }

  lemma SetNodeLook(t: Tree, h: Path, n: Option<Node>, x: Path)
    ensures Look(SetNode(t, h, n), x) == if x == h then n else Look(t, x)
  {
  }

  /**
    Below a destination, one host call at the resolved path answers as the guest's own
    tree does, and in the guest's view changes exactly the paths that resolve there.
   */
  lemma MutationRefines(v: View, t: Tree, p: Path, op: Op)
    requires Ordered(v) && Projects(v, p)
    requires v[ProjectionIndex(v, p).value].destination != p
    requires SourceMounted(t, v[ProjectionIndex(v, p).value].source)
    requires op == Rmdir ==> !NestedChild(v, p) && forall m :: 0 <= m < |v| ==> v[m].source in t
    ensures match HostPerform(t, Resolve(v, p), op)
            case Err(errno) => GuestPerform(v, t, p, op) == Err(errno)
            case Ok(t') =>
              && GuestPerform(v, t, p, op).Ok?
              && forall x :: GuestLook(v, t', x) ==
                   if Resolve(v, x) == Resolve(v, p) then GuestPerform(v, t, p, op).value else GuestLook(v, t, x)
  {
    AnswersAgree(v, t, p, op);
    var guest := GuestPerform(v, t, p, op);
    if guest.Ok? {
      var t' := SetNode(t, Resolve(v, p), guest.value);
      forall x ensures GuestLook(v, t', x) ==
                         if Resolve(v, x) == Resolve(v, p) then guest.value else GuestLook(v, t, x) {
        SetNodeLook(t, Resolve(v, p), guest.value, Resolve(v, x));
      }
    }
  }

  /**
    The paths that resolve where `p` does: of its own projection only `p`, and of all projected paths only
    `p` when the view round-trips.
   */
  lemma MutationTouchesOnly(v: View, p: Path, x: Path)
    requires Projects(v, p) && Projects(v, x)
    requires SameProjection(v, p, x) || (GuestRoundTrips(v) && NormalPath(p) && NormalPath(x))
    ensures Resolve(v, x) == Resolve(v, p) <==> x == p
  {
    if SameProjection(v, p, x) {
      ResolveInjective(v, p, x);
    } else {
      assert VirtualForHost(v, Resolve(v, p)) == p && VirtualForHost(v, Resolve(v, x)) == x;
    }
  }

  lemma {:induction false} PerformRmdir(look: Path -> Option<Node>, root: Path, q: Path, empty: bool)
    requires Walk(look, root, q).None? && look(root + q) == Some(Dir) && q != []
    ensures Perform(look, root, q, empty, Rmdir) == if empty then Ok(None) else Err(ENOTEMPTY)
  {
  }

  /** `rmdir` is the one call a nested bind can make differ: exactly when only binds keep the directory occupied. */
  lemma RmdirAgreesExactly(v: View, t: Tree, p: Path)
    requires Ordered(v) && Projects(v, p)
    requires v[ProjectionIndex(v, p).value].destination != p
    requires SourceMounted(t, v[ProjectionIndex(v, p).value].source)
    requires forall m :: 0 <= m < |v| ==> v[m].source in t
    requires Walk(Host(t), [], Resolve(v, p)).None? && Look(t, Resolve(v, p)) == Some(Dir)
    ensures (HostPerform(t, Resolve(v, p), Rmdir).Ok? <==> GuestPerform(v, t, p, Rmdir).Ok?)
            <==> !(HostEmpty(t, Resolve(v, p)) && NestedChild(v, p))
  {
    SameNodes(v, t, p);
    EmptinessAgrees(v, t, p);
    var d := v[ProjectionIndex(v, p).value].destination;
    var h := Resolve(v, p);
    assert p[|d|..] != [] && h != [];
    PerformRmdir(Host(t), [], h, HostEmpty(t, h));
    PerformRmdir(Guest(v, t), d, p[|d|..], GuestEmpty(v, t, p));
  }

  lemma MoveLook(t: Tree, a: Path, b: Path, x: Path)
    requires !(a <= b) && !(b <= a)
    ensures Look(MoveTree(t, a, b), x) ==
            if b <= x then Look(t, a + x[|b|..]) else if a <= x then None else Look(t, x)
  {
    if b <= x {
      var y := a + x[|b|..];
      assert a <= y && y[|a|..] == x[|b|..];
      assert b + y[|a|..] == x;
    }
  }

  lemma RenameIncomparable(t: Tree, a: Path, b: Path)
    requires HostRename(t, a, b).Ok? && a != b
    ensures !(a <= b) && !(b <= a)
    ensures HostRename(t, a, b).value == MoveTree(t, a, b)
  {
  }

  lemma SuffixResolves(v: View, p: Path, s: Path)
    requires SameProjection(v, p, p + s)
    ensures Resolve(v, p + s) == Resolve(v, p) + s
  {
    var pr := v[ProjectionIndex(v, p).value];
    assert (p + s)[|pr.destination|..] == p[|pr.destination|..] + s;
  }

  lemma Incomparable(a: Path, b: Path, s: Path)
    requires !(a <= b) && !(b <= a)
    ensures !(b <= a + s)
  {
  }

  /** A successful rename moves the subtree, for every suffix that stays in the projection at both ends. */
  lemma RenameMovesSubtree(v: View, t: Tree, from: Path, to: Path, s: Path)
    requires SameProjection(v, from, to) && from != to
    requires HostRename(t, Resolve(v, from), Resolve(v, to)).Ok?
    requires SameProjection(v, from, from + s) && SameProjection(v, to, to + s)
    ensures var t' := HostRename(t, Resolve(v, from), Resolve(v, to)).value;
            && GuestLook(v, t', to + s) == GuestLook(v, t, from + s)
            && GuestLook(v, t', from + s) == None
  {
    var a, b := Resolve(v, from), Resolve(v, to);
    ResolveInjective(v, from, to);
    RenameIncomparable(t, a, b);
    SuffixResolves(v, from, s);
    SuffixResolves(v, to, s);
    MoveLook(t, a, b, b + s);
    MoveLook(t, a, b, a + s);
    assert (b + s)[|b|..] == s;
    Incomparable(a, b, s);
  }

  /** A rename changes no guest path that resolves outside the two subtrees, and renaming onto itself changes none. */
  lemma RenameFrame(v: View, t: Tree, from: Path, to: Path, x: Path)
    requires SameProjection(v, from, to)
    requires HostRename(t, Resolve(v, from), Resolve(v, to)).Ok?
    requires from != to ==> !(Resolve(v, from) <= Resolve(v, x)) && !(Resolve(v, to) <= Resolve(v, x))
    ensures GuestLook(v, HostRename(t, Resolve(v, from), Resolve(v, to)).value, x) == GuestLook(v, t, x)
  {
    var a, b := Resolve(v, from), Resolve(v, to);
    if from != to {
      ResolveInjective(v, from, to);
      RenameIncomparable(t, a, b);
      MoveLook(t, a, b, Resolve(v, x));
    }
  }

  lemma {:induction false} SameRenameError(look: Path -> Option<Node>, root: Path, a: Path, b: Path,
                        look': Path -> Option<Node>, root': Path, a': Path, b': Path, empty: bool)
    requires Walk(look, root, a) == Walk(look', root', a') && look(root + a) == look'(root' + a')
    requires Walk(look, root, b) == Walk(look', root', b') && look(root + b) == look'(root' + b')
    requires (a == b <==> a' == b') && (a <= b <==> a' <= b') && (b <= a <==> b' <= a')
    ensures RenameError(look, root, a, b, empty) == RenameError(look', root', a', b', empty)
  {
  }

  /** A rename answers as the guest's own tree does, unless a bind hangs directly below the target. */
  lemma RenameAnswersAsGuest(v: View, t: Tree, from: Path, to: Path)
    requires Ordered(v) && SameProjection(v, from, to)
    requires SourceMounted(t, v[ProjectionIndex(v, from).value].source)
    requires !NestedChild(v, to) && forall m :: 0 <= m < |v| ==> v[m].source in t
    ensures var d := v[ProjectionIndex(v, from).value].destination;
            var guest := RenameError(Guest(v, t), d, from[|d|..], to[|d|..], GuestEmpty(v, t, to));
            match HostRename(t, Resolve(v, from), Resolve(v, to))
            case Ok(_) => guest == None
            case Err(errno) => guest == Some(errno)
  {
    var pr := v[ProjectionIndex(v, from).value];
    SameNodes(v, t, from);
    SameNodes(v, t, to);
    EmptinessAgrees(v, t, to);
    var a, b := from[|pr.destination|..], to[|pr.destination|..];
    SharedPrefix(pr.source, a, b);
    SameRenameError(Guest(v, t), pr.destination, a, b, Host(t), [], Resolve(v, from), Resolve(v, to),
                    GuestEmpty(v, t, to));
  }

  /** Both ends are directories and only binds keep the target occupied. */
  ghost predicate TargetOccupiedByBinds(v: View, t: Tree, from: Path, to: Path) {
    && Look(t, Resolve(v, from)) == Some(Dir) && Look(t, Resolve(v, to)) == Some(Dir)
    && HostEmpty(t, Resolve(v, to)) && NestedChild(v, to)
    && !(Resolve(v, from) <= Resolve(v, to)) && !(Resolve(v, to) <= Resolve(v, from))
    && Walk(Host(t), [], Resolve(v, from)).None? && Walk(Host(t), [], Resolve(v, to)).None?
  }

  lemma {:induction false} RenameErrorByEmptiness(look: Path -> Option<Node>, root: Path, a: Path, b: Path,
                                                  e: bool, e': bool)
    ensures (RenameError(look, root, a, b, e).None? <==> RenameError(look, root, a, b, e').None?) <==>
            !(e != e' && look(root + a) == Some(Dir) && look(root + b) == Some(Dir) && !(a <= b) && !(b <= a)
              && Walk(look, root, a).None? && Walk(look, root, b).None?)
  {
  }

  /** A rename succeeds as on the guest's own tree, except exactly onto a directory that only binds keep occupied. */
  lemma RenameAgreesExactly(v: View, t: Tree, from: Path, to: Path)
    requires Ordered(v) && SameProjection(v, from, to)
    requires SourceMounted(t, v[ProjectionIndex(v, from).value].source)
    requires forall m :: 0 <= m < |v| ==> v[m].source in t
    ensures var d := v[ProjectionIndex(v, from).value].destination;
            var guest := RenameError(Guest(v, t), d, from[|d|..], to[|d|..], GuestEmpty(v, t, to));
            (HostRename(t, Resolve(v, from), Resolve(v, to)).Ok? <==> guest.None?)
            <==> !TargetOccupiedByBinds(v, t, from, to)
  {
    var pr := v[ProjectionIndex(v, from).value];
    var h, k := Resolve(v, from), Resolve(v, to);
    SameNodes(v, t, from);
    SameNodes(v, t, to);
    EmptinessAgrees(v, t, to);
    var a, b := from[|pr.destination|..], to[|pr.destination|..];
    SharedPrefix(pr.source, a, b);
    SameRenameError(Guest(v, t), pr.destination, a, b, Host(t), [], h, k, GuestEmpty(v, t, to));
    RenameErrorByEmptiness(Host(t), [], h, k, GuestEmpty(v, t, to), HostEmpty(t, k));
  }

  lemma SharedPrefix(s: Path, a: Path, b: Path)
    ensures s + a <= s + b <==> a <= b
    ensures s + b <= s + a <==> b <= a
    ensures s + a == s + b <==> a == b
  {
    assert (s + a)[|s|..] == a && (s + b)[|s|..] == b;
    if s + a <= s + b { assert a == (s + b)[|s|..][..|a|]; }
    if s + b <= s + a { assert b == (s + a)[|s|..][..|b|]; }
  }

  // ----- bind.rs on a host tree in place -----

  /** The call is strictly below a mounted destination, and no bind hides what rmdir asks for. */
  ghost predicate BelowMount(v: View, t: Tree, p: Path, op: Op) {
    && Ordered(v) && Projects(v, p)
    && v[ProjectionIndex(v, p).value].destination != p
    && SourceMounted(t, v[ProjectionIndex(v, p).value].source)
    && (op == Rmdir ==> !NestedChild(v, p) && forall m :: 0 <= m < |v| ==> v[m].source in t)
  }

  /** Both ends are in one mounted projection, with no bind directly below the target. */
  ghost predicate InOneMount(v: View, t: Tree, from: Path, to: Path) {
    && Ordered(v) && SameProjection(v, from, to)
    && SourceMounted(t, v[ProjectionIndex(v, from).value].source)
    && !NestedChild(v, to) && forall m :: 0 <= m < |v| ==> v[m].source in t
  }

  /** What a call that left `n` at `p`, or failed, changes in the guest's view. */
  ghost predicate GuestSees(v: View, t: Tree, t': Tree, p: Path, r: Result<Option<Node>, int>) {
    forall x :: GuestLook(v, t', x) ==
                if r.Ok? && Resolve(v, x) == Resolve(v, p) then r.value else GuestLook(v, t, x)
  }

  class BoundTree {
    const view: View
    var tree: Tree

    constructor (view: View, tree: Tree)
      ensures this.view == view && this.tree == tree
    {
      this.view := view;
      this.tree := tree;
    }

    /**
      One call: below a mount it answers as the guest's own tree does and the guest sees what that
      tree would show; no other host path changes, and none when it fails.
     */
    method Mutate(p: Path, op: Op) returns (error: Option<int>)
      modifies this
      ensures error.Some? ==> tree == old(tree)
      ensures forall h :: h != Resolve(view, p) ==> Look(tree, h) == Look(old(tree), h)
      ensures BelowMount(view, old(tree), p, op) ==>
                var guest := GuestPerform(view, old(tree), p, op);
                error == (if guest.Ok? then None else Some(guest.error)) && GuestSees(view, old(tree), tree, p, guest)
      ensures match HostPerform(old(tree), Resolve(view, p), op)
              case Ok(t) => error == None && tree == t
              case Err(errno) => error == Some(errno)
    {
      ghost var before := tree;
      var r := HostPerform(tree, Resolve(view, p), op);
      match r {
        case Ok(t) =>
          tree := t;
          error := None;
        case Err(errno) =>
          error := Some(errno);
      }
      if BelowMount(view, before, p, op) {
        MutationRefines(view, before, p, op);
      }
    }

    /**
      A rename: EXDEV outside one projection; inside one it answers as the guest's own tree does and
      moves, in the guest's view, everything that stays in the projection at both ends.
     */
    method Rename(from: Path, to: Path) returns (error: Option<int>)
      modifies this
      ensures error.Some? ==> tree == old(tree)
      ensures !SameProjection(view, from, to) ==> error == Some(EXDEV)
      ensures SameProjection(view, from, to) ==>
                match HostRename(old(tree), Resolve(view, from), Resolve(view, to))
                case Ok(t) => error == None && tree == t
                case Err(errno) => error == Some(errno)
      ensures InOneMount(view, old(tree), from, to) ==>
                var d := view[ProjectionIndex(view, from).value].destination;
                error == RenameError(Guest(view, old(tree)), d, from[|d|..], to[|d|..], GuestEmpty(view, old(tree), to))
      ensures error == None && from != to ==>
                forall s :: SameProjection(view, from, from + s) && SameProjection(view, to, to + s) ==>
                              && GuestLook(view, tree, to + s) == GuestLook(view, old(tree), from + s)
                              && GuestLook(view, tree, from + s) == None
    {
      ghost var before := tree;
      var i, j := ProjectionIndex(view, from), ProjectionIndex(view, to);
      if i.None? || j.None? || i != j {
        return Some(EXDEV);
      }
      match HostRename(tree, ResolveIn(view[i.value], from), ResolveIn(view[j.value], to)) {
        case Ok(t) =>
          tree := t;
          error := None;
          if from != to {
            forall s | SameProjection(view, from, from + s) && SameProjection(view, to, to + s)
              ensures GuestLook(view, tree, to + s) == GuestLook(view, before, from + s)
              ensures GuestLook(view, tree, from + s) == None
            {
              RenameMovesSubtree(view, before, from, to, s);
            }
          }
        case Err(errno) =>
          error := Some(errno);
      }
      if InOneMount(view, before, from, to) {
        RenameAnswersAsGuest(view, before, from, to);
      }
    }
  }
}
