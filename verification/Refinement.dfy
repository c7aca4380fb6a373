/**
  Whole runs over a host tree, changed by the supervisor and by the calls the kernel is left to
  make: in the guest's eyes it is the tree its own calls make, and every reply is the one that
  tree gives.
 */
module Refinement {
  import opened Wrappers
  import opened Paths
  import opened Bind
  import opened HostView
  import opened TreeMoves
  import opened HostChanges
  import opened Visibility
  import D = Dispatch
  import S = Supervision

  /** The tree a guest knows. */
  type Sight = Path -> Option<Node>

  /** A guest call that changes the tree, on projected paths. */
  datatype GuestCall = Change(path: Path, op: Op) | Move(source: Path, target: Path)

  ghost predicate NormalTree(t: Tree) {
    forall x :: x in t ==> NormalPath(x)
  }

  /** On every projected path `g` is what the view shows of `t`. */
  ghost predicate Shows(v: View, t: Tree, g: Sight) {
    forall x :: Seen(v, x) ==> g(x) == GuestLook(v, t, x)
  }

  ghost predicate SightEmpty(g: Sight, p: Path) {
    forall c: Bytes :: IsName(c) ==> g(p + [c]).None?
  }

  function With(g: Sight, p: Path, n: Option<Node>): Sight {
    x => if x == p then n else g(x)
  }

  /** The tree after a call that leaves a node at `p`, or its error. */
  function Leaving(g: Sight, p: Path, r: Result<Option<Node>, int>): Result<Sight, int> {
    match r
    case Ok(n) => Ok(With(g, p, n))
    case Err(errno) => Err(errno)
  }

  function Start(c: GuestCall): Path {
    match c
    case Change(p, _) => p
    case Move(p, _) => p
  }

  /** The call on the guest's own tree. */
  ghost function GuestResult(v: View, g: Sight, c: GuestCall): Result<Sight, int>
    requires Projects(v, Start(c)) && (c.Move? ==> SameProjection(v, c.source, c.target))
  {
    var d := v[ProjectionIndex(v, Start(c)).value].destination;
    match c
    case Change(p, op) => Leaving(g, p, Perform(g, d, p[|d|..], SightEmpty(g, p), op))
    case Move(p, q) => (
      match RenameError(g, d, p[|d|..], q[|d|..], SightEmpty(g, q))
      case None => Ok(if p == q then g else MovedLook(g, p, q))
      case Some(errno) => Err(errno))
  }

  /** The host call made for it. */
  function OnHost(v: View, c: GuestCall): HostChange {
    match c
    case Change(p, op) => At(Resolve(v, p), op)
    case Move(p, q) => Renamed(Resolve(v, p), Resolve(v, q))
  }

  function HostResult(v: View, t: Tree, c: GuestCall): Result<Tree, int> {
    Applied(t, OnHost(v, c))
  }

  /** Both results are the same error, or trees that agree on every projected path. */
  ghost predicate Simulated(v: View, host: Result<Tree, int>, guest: Result<Sight, int>) {
    match host
    case Err(errno) => guest == Err(errno)
    case Ok(after) => guest.Ok? && Shows(v, after, guest.value)
  }

  ghost predicate Unnested(v: View, p: Path) {
    forall m :: 0 <= m < |v| ==> !(p < v[m].destination)
  }

  ghost predicate AllMounted(v: View, t: Tree) {
    forall m :: 0 <= m < |v| ==> v[m].source in t
  }

  /** Strictly below a mounted destination, with no bind below a directory that is renamed, replaced or removed. */
  ghost predicate Fit(v: View, t: Tree, c: GuestCall) {
    && Projects(v, Start(c)) && SourceMounted(t, v[ProjectionIndex(v, Start(c)).value].source)
    && match c
       case Change(p, op) =>
         && v[ProjectionIndex(v, p).value].destination != p
         && (op == Rmdir ==> !NestedChild(v, p) && AllMounted(v, t))
       case Move(p, q) => SameProjection(v, p, q) && Unnested(v, p) && Unnested(v, q) && AllMounted(v, t)
  }

  ghost predicate NormalCall(c: GuestCall) {
    NormalPath(Start(c)) && (c.Move? ==> NormalPath(c.target))
  }

  // ----- One call -----

  lemma {:induction false} SameWalk(look: Sight, look': Sight, root: Path, q: Path)
    requires forall i :: 0 <= i < |q| ==> look(root + q[..i]) == look'(root + q[..i])
    ensures Walk(look, root, q) == Walk(look', root, q)
    decreases |q|
  {
    if q != [] {
      assert root + q[..0] == root;
      forall i | 0 <= i < |q| - 1 ensures look(root + [q[0]] + q[1..][..i]) == look'(root + [q[0]] + q[1..][..i]) {
        assert root + [q[0]] + q[1..][..i] == root + q[..i + 1];
      }
      SameWalk(look, look', root + [q[0]], q[1..]);
    }
  }

  /** Walking to a projected path meets the same nodes in the guest's tree as through the view. */
  lemma SightWalk(v: View, t: Tree, g: Sight, p: Path)
    requires Ordered(v) && Shows(v, t, g) && Projects(v, p) && NormalPath(p)
    ensures var d := v[ProjectionIndex(v, p).value].destination;
            && Walk(g, d, p[|d|..]) == Walk(Guest(v, t), d, p[|d|..])
            && g(d + p[|d|..]) == Guest(v, t)(d + p[|d|..]) == GuestLook(v, t, p)
  {
    var d := v[ProjectionIndex(v, p).value].destination;
    var q := p[|d|..];
    assert d + q == p;
    forall i | 0 <= i < |q| ensures g(d + q[..i]) == Guest(v, t)(d + q[..i]) {
      var x := d + q[..i];
      assert d <= x <= p && x == p[..|x|];
      SelectBetween(v, p, x);
    }
    SameWalk(g, Guest(v, t), d, q);
  }

  lemma NamelessChild(v: View, t: Tree, p: Path, c: Bytes)
    requires ValidView(v) && NormalTree(t) && Projects(v, p) && !IsName(c)
    ensures GuestLook(v, t, p + [c]).None?
  {
    ChildSelection(v, p, c);
    var x := Resolve(v, p) + [c];
    assert x[|Resolve(v, p)|] == c;
    assert (p + [c])[|p|] == c;
  }

  lemma ShownAt(v: View, t: Tree, g: Sight, x: Path)
    requires Shows(v, t, g) && Seen(v, x)
    ensures g(x) == GuestLook(v, t, x)
  {
  }

  lemma NormalChild(p: Path, c: Bytes)
    requires NormalPath(p) && IsName(c)
    ensures NormalPath(p + [c])
  {
  }

  lemma NamedChild(v: View, t: Tree, g: Sight, p: Path, c: Bytes)
    requires Ordered(v) && Shows(v, t, g) && Projects(v, p) && NormalPath(p) && IsName(c)
    ensures g(p + [c]) == GuestLook(v, t, p + [c])
  {
    ChildSelection(v, p, c);
    NormalChild(p, c);
    ShownAt(v, t, g, p + [c]);
  }

  lemma SightEmptiness(v: View, t: Tree, g: Sight, p: Path)
    requires ValidView(v) && NormalTree(t) && Shows(v, t, g) && Projects(v, p) && NormalPath(p)
    ensures SightEmpty(g, p) <==> GuestEmpty(v, t, p)
  {
    if SightEmpty(g, p) {
      forall c: Bytes ensures GuestLook(v, t, p + [c]).None? {
        if IsName(c) {
          NamedChild(v, t, g, p, c);
        } else {
          NamelessChild(v, t, p, c);
        }
      }
    } else {
      var c: Bytes :| IsName(c) && g(p + [c]).Some?;
      NamedChild(v, t, g, p, c);
    }
  }

  lemma {:induction false} PerformFrom(look: Sight, look': Sight, root: Path, q: Path, empty: bool, op: Op)
    requires Walk(look, root, q) == Walk(look', root, q) && look(root + q) == look'(root + q)
    ensures Perform(look, root, q, empty, op) == Perform(look', root, q, empty, op)
  {
  }

  lemma GuestsChange(v: View, t: Tree, g: Sight, p: Path, op: Op)
    requires ValidView(v) && NormalTree(t) && Shows(v, t, g) && Seen(v, p)
    ensures GuestResult(v, g, Change(p, op)) == Leaving(g, p, GuestPerform(v, t, p, op))
  {
    var d := v[ProjectionIndex(v, p).value].destination;
    SightWalk(v, t, g, p);
    SightEmptiness(v, t, g, p);
    PerformFrom(g, Guest(v, t), d, p[|d|..], SightEmpty(g, p), op);
  }

  lemma ChangeShows(v: View, t: Tree, g: Sight, p: Path, n: Option<Node>, after: Tree)
    requires GuestRoundTrips(v) && Shows(v, t, g) && Seen(v, p)
    requires forall x :: GuestLook(v, after, x) == if Resolve(v, x) == Resolve(v, p) then n else GuestLook(v, t, x)
    ensures Shows(v, after, With(g, p, n))
  {
    forall x | Seen(v, x) ensures With(g, p, n)(x) == GuestLook(v, after, x) {
      MutationTouchesOnly(v, p, x);
    }
  }

  lemma HostsChange(v: View, t: Tree, g: Sight, p: Path, op: Op)
    requires ValidView(v) && GuestRoundTrips(v) && Shows(v, t, g) && Seen(v, p) && Fit(v, t, Change(p, op))
    ensures Simulated(v, HostPerform(t, Resolve(v, p), op), Leaving(g, p, GuestPerform(v, t, p, op)))
  {
    MutationRefines(v, t, p, op);
    if HostPerform(t, Resolve(v, p), op).Ok? {
      ChangeShows(v, t, g, p, GuestPerform(v, t, p, op).value, HostPerform(t, Resolve(v, p), op).value);
    }
  }

  lemma ChangeSimulates(v: View, t: Tree, g: Sight, c: GuestCall)
    requires ValidView(v) && GuestRoundTrips(v) && NormalTree(t) && Shows(v, t, g)
    requires c.Change? && NormalCall(c) && Fit(v, t, c)
    ensures Simulated(v, HostResult(v, t, c), GuestResult(v, g, c))
  {
    GuestsChange(v, t, g, c.path, c.op);
    HostsChange(v, t, g, c.path, c.op);
  }

  lemma {:induction false} RenameErrorFrom(look: Sight, look': Sight, root: Path, a: Path, b: Path, empty: bool)
    requires Walk(look, root, a) == Walk(look', root, a) && look(root + a) == look'(root + a)
    requires Walk(look, root, b) == Walk(look', root, b) && look(root + b) == look'(root + b)
    ensures RenameError(look, root, a, b, empty) == RenameError(look', root, a, b, empty)
  {
  }

  lemma UnnestedHasNoChild(v: View, p: Path)
    requires Unnested(v, p)
    ensures !NestedChild(v, p)
  {
  }

  lemma MoveAnswers(v: View, t: Tree, g: Sight, c: GuestCall)
    requires ValidView(v) && NormalTree(t) && Shows(v, t, g)
    requires c.Move? && NormalCall(c) && Fit(v, t, c)
    ensures match HostResult(v, t, c)
            case Err(errno) => GuestResult(v, g, c) == Err(errno)
            case Ok(_) => GuestResult(v, g, c).Ok?
  {
    var p, q := c.source, c.target;
    var d := v[ProjectionIndex(v, p).value].destination;
    UnnestedHasNoChild(v, q);
    RenameAnswersAsGuest(v, t, p, q);
    SightWalk(v, t, g, p);
    SightWalk(v, t, g, q);
    SightEmptiness(v, t, g, q);
    RenameErrorFrom(g, Guest(v, t), d, p[|d|..], q[|d|..], SightEmpty(g, q));
  }

  lemma SameResolved(v: View, x: Path, y: Path)
    requires GuestRoundTrips(v) && Seen(v, x) && NormalPath(y) && Projects(v, y)
    requires Resolve(v, x) == Resolve(v, y)
    ensures x == y
  {
    assert VirtualForHost(v, Resolve(v, x)) == x && VirtualForHost(v, Resolve(v, y)) == y;
  }

  lemma NormalSuffix(a: Path, b: Path, n: nat)
    requires NormalPath(a) && NormalPath(b) && n <= |b|
    ensures NormalPath(a + b[n..])
  {
  }

  /** What resolves below an unnested path resolves where a path below it does. */
  lemma ResolvesBelow(v: View, p: Path, x: Path)
    requires Ordered(v) && Projects(v, p) && Unnested(v, p) && Resolve(v, p) <= Resolve(v, x)
    ensures var y := p + Resolve(v, x)[|Resolve(v, p)|..];
            Projects(v, y) && Resolve(v, y) == Resolve(v, x)
  {
    UnnestedResolves(v, p, Resolve(v, x)[|Resolve(v, p)|..]);
  }

  lemma NormalBelow(v: View, p: Path, x: Path, n: nat)
    requires Clean(v) && NormalPath(p) && NormalPath(x) && n <= |Resolve(v, x)|
    ensures NormalPath(p + Resolve(v, x)[n..])
  {
    S.ResolveNormal(v, x);
    NormalSuffix(p, Resolve(v, x), n);
  }

  /** Nothing projected outside an unnested path resolves below it, when the view round-trips. */
  lemma NoProjectedAlias(v: View, p: Path, x: Path)
    requires ValidView(v) && GuestRoundTrips(v) && Projects(v, p) && Unnested(v, p) && NormalPath(p)
    requires Seen(v, x) && Resolve(v, p) <= Resolve(v, x)
    ensures p <= x
  {
    var y := p + Resolve(v, x)[|Resolve(v, p)|..];
    ResolvesBelow(v, p, x);
    NormalBelow(v, p, x, |Resolve(v, p)|);
    SameResolved(v, x, y);
  }

  /** Both ends of a rename in one projection, with nothing bound below either. */
  ghost predicate FreeEnds(v: View, p: Path, q: Path) {
    && SameProjection(v, p, q) && Unnested(v, p) && Unnested(v, q)
    && NormalPath(p) && NormalPath(q) && Apart(Resolve(v, p), Resolve(v, q))
  }

  lemma MovedTarget(v: View, t: Tree, g: Sight, p: Path, q: Path, s: Path)
    requires Ordered(v) && Shows(v, t, g) && FreeEnds(v, p, q) && NormalPath(p + s)
    ensures MovedLook(g, p, q)(q + s) == GuestLook(v, MoveTree(t, Resolve(v, p), Resolve(v, q)), q + s)
  {
    UnnestedResolves(v, p, s);
    ShownAt(v, t, g, p + s);
    UnnestedEndsCorrespond(v, p, q, s);
    CorrespondingTarget(v, t, p, q, s);
    assert (q + s)[|q|..] == s;
  }

  lemma MovedSource(v: View, t: Tree, g: Sight, p: Path, q: Path, s: Path)
    requires Ordered(v) && FreeEnds(v, p, q)
    ensures MovedLook(g, p, q)(p + s) == GuestLook(v, MoveTree(t, Resolve(v, p), Resolve(v, q)), p + s)
  {
    UnnestedEndsCorrespond(v, p, q, s);
    CorrespondingSource(v, t, p, q, s);
    ApartEnds(v, p, q);
    Incomparable(p, q, s);
  }

  lemma MovedElsewhere(v: View, t: Tree, g: Sight, p: Path, q: Path, x: Path)
    requires ValidView(v) && GuestRoundTrips(v) && Shows(v, t, g) && FreeEnds(v, p, q)
    requires Seen(v, x) && !(p <= x) && !(q <= x)
    ensures MovedLook(g, p, q)(x) == GuestLook(v, MoveTree(t, Resolve(v, p), Resolve(v, q)), x)
  {
    if Resolve(v, p) <= Resolve(v, x) {
      NoProjectedAlias(v, p, x);
    } else if Resolve(v, q) <= Resolve(v, x) {
      NoProjectedAlias(v, q, x);
    } else {
      MoveLook(t, Resolve(v, p), Resolve(v, q), Resolve(v, x));
      ShownAt(v, t, g, x);
    }
  }

  lemma SplitAt(p: Path, x: Path)
    requires p <= x
    ensures p + x[|p|..] == x
  {
  }

  lemma MovedAt(v: View, t: Tree, g: Sight, p: Path, q: Path, x: Path)
    requires ValidView(v) && GuestRoundTrips(v) && Shows(v, t, g) && FreeEnds(v, p, q)
    requires Seen(v, x)
    ensures MovedLook(g, p, q)(x) == GuestLook(v, MoveTree(t, Resolve(v, p), Resolve(v, q)), x)
  {
    if q <= x {
      SplitAt(q, x);
      NormalSuffix(p, x, |q|);
      MovedTarget(v, t, g, p, q, x[|q|..]);
    } else if p <= x {
      SplitAt(p, x);
      MovedSource(v, t, g, p, q, x[|p|..]);
    } else {
      MovedElsewhere(v, t, g, p, q, x);
    }
  }

  lemma MovedShows(v: View, t: Tree, g: Sight, p: Path, q: Path)
    requires ValidView(v) && GuestRoundTrips(v) && Shows(v, t, g) && FreeEnds(v, p, q)
    ensures Shows(v, MoveTree(t, Resolve(v, p), Resolve(v, q)), MovedLook(g, p, q))
  {
    forall x | Seen(v, x)
      ensures MovedLook(g, p, q)(x) == GuestLook(v, MoveTree(t, Resolve(v, p), Resolve(v, q)), x)
    {
      MovedAt(v, t, g, p, q, x);
    }
  }

  lemma MoveResult(v: View, g: Sight, p: Path, q: Path)
    requires SameProjection(v, p, q) && GuestResult(v, g, Move(p, q)).Ok?
    ensures GuestResult(v, g, Move(p, q)).value == if p == q then g else MovedLook(g, p, q)
  {
  }

  lemma HostMoves(v: View, t: Tree, p: Path, q: Path)
    requires SameProjection(v, p, q) && HostRename(t, Resolve(v, p), Resolve(v, q)).Ok?
    ensures p == q ==> HostRename(t, Resolve(v, p), Resolve(v, q)).value == t
    ensures p != q ==> Apart(Resolve(v, p), Resolve(v, q))
                       && HostRename(t, Resolve(v, p), Resolve(v, q)).value == MoveTree(t, Resolve(v, p), Resolve(v, q))
  {
    ResolveInjective(v, p, q);
    if p != q {
      RenameIncomparable(t, Resolve(v, p), Resolve(v, q));
    }
  }

  lemma MoveShows(v: View, t: Tree, g: Sight, p: Path, q: Path)
    requires ValidView(v) && GuestRoundTrips(v) && Shows(v, t, g)
    requires SameProjection(v, p, q) && Unnested(v, p) && Unnested(v, q) && NormalPath(p) && NormalPath(q)
    requires HostRename(t, Resolve(v, p), Resolve(v, q)).Ok?
    ensures Shows(v, HostRename(t, Resolve(v, p), Resolve(v, q)).value, if p == q then g else MovedLook(g, p, q))
  {
    HostMoves(v, t, p, q);
    if p != q {
      MovedShows(v, t, g, p, q);
    }
  }

  lemma MoveSimulates(v: View, t: Tree, g: Sight, c: GuestCall)
    requires ValidView(v) && GuestRoundTrips(v) && NormalTree(t) && Shows(v, t, g)
    requires c.Move? && NormalCall(c) && Fit(v, t, c)
    ensures Simulated(v, HostResult(v, t, c), GuestResult(v, g, c))
  {
    MoveAnswers(v, t, g, c);
    assert HostResult(v, t, c) == HostRename(t, Resolve(v, c.source), Resolve(v, c.target));
    if HostResult(v, t, c).Ok? {
      MoveResult(v, g, c.source, c.target);
      MoveShows(v, t, g, c.source, c.target);
    }
  }

  lemma MoveKeepsNormal(t: Tree, a: Path, b: Path)
    requires NormalTree(t) && NormalPath(a) && NormalPath(b)
    ensures NormalTree(MoveTree(t, a, b))
  {
  }

  lemma CallKeepsNormal(v: View, t: Tree, c: GuestCall)
    requires Clean(v) && NormalTree(t) && NormalCall(c)
    ensures HostResult(v, t, c).Ok? ==> NormalTree(HostResult(v, t, c).value)
  {
    S.ResolveNormal(v, Start(c));
    if c.Move? {
      S.ResolveNormal(v, c.target);
      MoveKeepsNormal(t, Resolve(v, c.source), Resolve(v, c.target));
    }
  }

  // ----- Notifications -----

  /** The guest call a notification makes on projected paths, if any. */
  function GuestCallOf(v: View, st: D.State, n: D.Notification, a: D.Answers): Option<GuestCall> {
    if n.call.Rename? then
      match (D.ReadAndResolve(v, st, a.proc, n.pid, n.call.dirfd, a.path),
             D.ReadAndResolve(v, st, a.proc, n.pid, n.call.newDirfd, a.other))
      case (Ok(p), Ok(q)) => if n.call.flags == 0 && SameProjection(v, p, q) then Some(Move(p, q)) else None
      case _ => None
    else
      match (OpOf(n.call, a), S.Target(v, st, n, a))
      case (Some(op), Some(p)) => if Projects(v, p) && S.ArgumentsRead(n, a) then Some(Change(p, op)) else None
      case _ => None
  }

  /** The host answers the call from its tree. */
  ghost predicate HostAnswers(v: View, t: Tree, c: GuestCall, a: D.Answers) {
    match HostResult(v, t, c)
    case Ok(_) => a.host.Ok?
    case Err(errno) => a.host == Err(errno)
  }

  /** A file that was opened reaches the tracee as a descriptor. */
  predicate Delivered(n: D.Notification, a: D.Answers) {
    n.call.Open? && a.host.Ok? ==> a.inject.Ok?
  }

  /** `reply` tells the guest that its call had the result `r`. */
  predicate Tells<T>(reply: D.Reply, r: Result<T, int>, n: D.Notification, a: D.Answers) {
    match r
    case Ok(_) => if n.call.Open? then a.inject.Ok? && reply == D.SendFd(a.inject.value) else reply == D.Value(0)
    case Err(errno) => reply == D.Error(errno)
  }

  /** A guest call is one host call; its reply tells the host's result, unless an opened file got lost. */
  ghost predicate DoneBy(v: View, st: D.State, t: Tree, c: GuestCall, n: D.Notification, a: D.Answers)
    requires D.CursorsInRange(st)
  {
    && After(t, Changed(v, st, n, a)) == After(t, OnHost(v, c))
    && (Tells(S.Answered(v, st, n, a), HostResult(v, t, c), n, a) <==> Delivered(n, a))
  }

  /** A single host call and its reply are all a notification does. */
  predicate CallsThenReplies(v: View, st: D.State, n: D.Notification, a: D.Answers, e: D.Effect, reply: D.Reply)
    requires D.CursorsInRange(st)
  {
    D.Step(v, st, n, a).effects == [e, D.Terminal(reply)]
  }

  lemma ForwardedChange(v: View, st: D.State, n: D.Notification, a: D.Answers, e: D.Effect, reply: D.Reply)
    requires D.CursorsInRange(st) && CallsThenReplies(v, st, n, a, e, reply) && reply != D.Continue
    ensures Changed(v, st, n, a) == ChangeBy(n, a, e) && S.Answered(v, st, n, a) == reply
  {
    CallThenReply(n, a, e, reply);
  }

  function HostsReply(n: D.Notification, a: D.Answers): D.Reply {
    if a.host.Err? then D.Error(a.host.error)
    else if !n.call.Open? then D.Value(0)
    else if a.inject.Err? then D.Error(a.inject.error) else D.SendFd(a.inject.value)
  }

  lemma ChangeForwards(v: View, st: D.State, n: D.Notification, a: D.Answers, p: Path, op: Op)
    requires D.CursorsInRange(st) && GuestCallOf(v, st, n, a) == Some(Change(p, op))
    requires op.Create? || op.Truncate? ==> !D.HasNul(Resolve(v, p))
    ensures CallsThenReplies(v, st, n, a, D.HostCall(Resolve(v, p)), HostsReply(n, a))
  {
    if n.call.Open? {
      S.OpenForwards(v, st, n.pid, n.call.dirfd, n.call.structured, n.call.directory, a, p);
    } else {
      S.MutatorForwards(v, st, n.pid, n.call.kind, n.call.dirfd, a, p);
    }
  }

  lemma ChangeDone(v: View, st: D.State, t: Tree, n: D.Notification, a: D.Answers, p: Path, op: Op)
    requires D.CursorsInRange(st) && GuestCallOf(v, st, n, a) == Some(Change(p, op))
    requires !D.HasNul(Resolve(v, p)) && HostAnswers(v, t, Change(p, op), a)
    ensures DoneBy(v, st, t, Change(p, op), n, a)
  {
    ChangeForwards(v, st, n, a, p, op);
    ForwardedChange(v, st, n, a, D.HostCall(Resolve(v, p)), HostsReply(n, a));
  }

  lemma MoveForwards(v: View, st: D.State, n: D.Notification, a: D.Answers, p: Path, q: Path)
    requires D.CursorsInRange(st) && GuestCallOf(v, st, n, a) == Some(Move(p, q))
    ensures CallsThenReplies(v, st, n, a, D.HostRename(Resolve(v, p), Resolve(v, q)), HostsReply(n, a))
  {
    assert D.Step(v, st, n, a).effects == D.RenameEffects(v, st, n.pid, n.call.dirfd, n.call.newDirfd, n.call.flags, a);
  }

  lemma MoveDone(v: View, st: D.State, t: Tree, n: D.Notification, a: D.Answers, p: Path, q: Path)
    requires D.CursorsInRange(st) && GuestCallOf(v, st, n, a) == Some(Move(p, q))
    requires HostAnswers(v, t, Move(p, q), a)
    ensures DoneBy(v, st, t, Move(p, q), n, a)
  {
    MoveForwards(v, st, n, a, p, q);
    ForwardedChange(v, st, n, a, D.HostRename(Resolve(v, p), Resolve(v, q)), HostsReply(n, a));
  }

  lemma CallDone(v: View, st: D.State, t: Tree, n: D.Notification, a: D.Answers, c: GuestCall)
    requires D.CursorsInRange(st) && GuestCallOf(v, st, n, a) == Some(c)
    requires !D.HasNul(Resolve(v, Start(c))) && HostAnswers(v, t, c, a)
    ensures DoneBy(v, st, t, c, n, a)
  {
    match c {
      case Change(p, op) => ChangeDone(v, st, t, n, a, p, op);
      case Move(p, q) => MoveDone(v, st, t, n, a, p, q);
    }
  }

  // ----- Every other notification -----

  /** Answered at once: left to the kernel or refused. */
  predicate AtOnce(v: View, st: D.State, n: D.Notification, a: D.Answers)
    requires D.CursorsInRange(st)
  {
    |D.Step(v, st, n, a).effects| == 1 && D.Step(v, st, n, a).effects[0].Terminal?
  }

  lemma OpenAtOnce(v: View, st: D.State, n: D.Notification, a: D.Answers)
    requires D.CursorsInRange(st) && n.call.Open? && n.call.create.Some? && GuestCallOf(v, st, n, a).None?
    ensures AtOnce(v, st, n, a)
  {
  }

  lemma MutatorAtOnce(v: View, st: D.State, n: D.Notification, a: D.Answers)
    requires D.CursorsInRange(st) && n.call.OnPath? && OpOf(n.call, a).Some? && GuestCallOf(v, st, n, a).None?
    ensures AtOnce(v, st, n, a)
  {
  }

  lemma RenameAtOnce(v: View, st: D.State, n: D.Notification, a: D.Answers)
    requires D.CursorsInRange(st) && n.call.Rename? && GuestCallOf(v, st, n, a).None?
    ensures AtOnce(v, st, n, a)
  {
    assert D.Step(v, st, n, a).effects == D.RenameEffects(v, st, n.pid, n.call.dirfd, n.call.newDirfd, n.call.flags, a);
  }

  /** What the kernel does by itself once the call was continued. */
  function LeftToHost(v: View, st: D.State, n: D.Notification, a: D.Answers): HostChange
    requires D.CursorsInRange(st)
  {
    if S.Answered(v, st, n, a) == D.Continue && a.kernelOk then KernelChange(n, a) else Unchanged
  }

  lemma {:induction false} AtOnceChanges(v: View, st: D.State, n: D.Notification, a: D.Answers)
    requires D.CursorsInRange(st) && AtOnce(v, st, n, a)
    ensures Changed(v, st, n, a) == LeftToHost(v, st, n, a)
  {
    var effects := D.Step(v, st, n, a).effects;
    assert effects == [effects[0]];
    SingleEffect(n, a, effects[0]);
  }

  /**
    A notification that is no such call changes nothing itself: the host changes only by the call
    the kernel makes when it is continued, at the path the kernel resolves.
   */
  lemma {:induction false} OthersChangeByKernel(v: View, st: D.State, n: D.Notification, a: D.Answers)
    requires D.CursorsInRange(st) && GuestCallOf(v, st, n, a).None?
    ensures Changed(v, st, n, a) == LeftToHost(v, st, n, a)
  {
    if n.call.Rename? {
      RenameAtOnce(v, st, n, a);
      AtOnceChanges(v, st, n, a);
    } else if n.call.Open? && n.call.create.Some? {
      OpenAtOnce(v, st, n, a);
      AtOnceChanges(v, st, n, a);
    } else if n.call.OnPath? && OpOf(n.call, a).Some? {
      MutatorAtOnce(v, st, n, a);
      AtOnceChanges(v, st, n, a);
    } else if n.call.Open? || n.call.OnPath? {
      InertChangesNothing(v, st, n, a);
    } else if n.call.Chdir? || n.call.Fchdir? {
      EnteringChangesNothing(v, st, n, a);
    } else {
      ReadingChangesNothing(v, st, n, a);
    }
  }

  lemma LexicalIsNormal(base: Path, path: Bytes)
    requires NormalPath(base) && NulFree(path)
    ensures NormalPath(Lexical(base, path))
  {
    FoldIsNormal([], path);
    FoldIsNormal(base, path);
  }

  lemma KernelChangeIsNormal(n: D.Notification, a: D.Answers)
    requires S.GoodAnswers(a) && NormalPath(a.base) && NormalPath(a.otherBase)
    ensures NormalChange(KernelChange(n, a))
  {
    if a.path.Ok? {
      LexicalIsNormal(a.base, a.path.value);
    }
    if a.other.Ok? {
      LexicalIsNormal(a.otherBase, a.other.value);
    }
  }

  lemma ChangeKeepsNormal(t: Tree, c: HostChange)
    requires NormalTree(t) && NormalChange(c)
    ensures NormalTree(After(t, c))
  {
    if c.Renamed? {
      MoveKeepsNormal(t, c.source, c.target);
    }
  }

  // ----- Runs -----

  function StateAfter(v: View, st: D.State, e: S.Event): (r: D.State)
    requires D.CursorsInRange(st)
    ensures D.CursorsInRange(r)
  {
    D.Step(v, st, e.notification, e.answers).state
  }

  function TreeAfter(v: View, st: D.State, t: Tree, e: S.Event): Tree
    requires D.CursorsInRange(st)
  {
    After(t, Changed(v, st, e.notification, e.answers))
  }

  /** The host tree after everything the supervisor and the kernel do in a run. */
  function HostRun(v: View, st: D.State, t: Tree, events: seq<S.Event>): Tree
    requires D.CursorsInRange(st)
    decreases |events|
  {
    if events == [] then t else HostRun(v, StateAfter(v, st, events[0]), TreeAfter(v, st, t, events[0]), events[1..])
  }

  ghost function SightAfter(v: View, st: D.State, g: Sight, e: S.Event): Sight {
    var c := GuestCallOf(v, st, e.notification, e.answers);
    if c.Some? && GuestResult(v, g, c.value).Ok? then GuestResult(v, g, c.value).value else g
  }

  /** The guest's own tree after the calls of a run. */
  ghost function SightRun(v: View, st: D.State, g: Sight, events: seq<S.Event>): Sight
    requires D.CursorsInRange(st)
    decreases |events|
  {
    if events == [] then g
    else SightRun(v, StateAfter(v, st, events[0]), SightAfter(v, st, g, events[0]), events[1..])
  }

  /**
    A guest call is fit when it is made and answered from the host tree of that moment; what the
    kernel changes by itself is out of the guest's sight.
   */
  ghost predicate FitEvent(v: View, st: D.State, t: Tree, e: S.Event)
    requires D.CursorsInRange(st)
  {
    var n, a := e.notification, e.answers;
    match GuestCallOf(v, st, n, a)
    case Some(c) => Fit(v, t, c) && HostAnswers(v, t, c, a)
    case None =>
      && NormalPath(a.base) && NormalPath(a.otherBase)
      && (CanChange(LeftToHost(v, st, n, a)) ==> UnseenChange(v, LeftToHost(v, st, n, a)))
  }

  ghost predicate FitRun(v: View, st: D.State, t: Tree, events: seq<S.Event>)
    requires D.CursorsInRange(st)
    decreases |events|
  {
    events != [] ==>
      && FitEvent(v, st, t, events[0])
      && FitRun(v, StateAfter(v, st, events[0]), TreeAfter(v, st, t, events[0]), events[1..])
  }

  ghost predicate RepliedAsGuest(v: View, st: D.State, g: Sight, e: S.Event)
    requires D.CursorsInRange(st)
  {
    var n, a := e.notification, e.answers;
    var c := GuestCallOf(v, st, n, a);
    c.Some? ==> Tells(S.Answered(v, st, n, a), GuestResult(v, g, c.value), n, a)
  }

  /** The reply to every guest call is that of the guest's own tree. */
  ghost predicate RepliesAsGuest(v: View, st: D.State, g: Sight, events: seq<S.Event>)
    requires D.CursorsInRange(st)
    decreases |events|
  {
    events != [] ==>
      && RepliedAsGuest(v, st, g, events[0])
      && RepliesAsGuest(v, StateAfter(v, st, events[0]), SightAfter(v, st, g, events[0]), events[1..])
  }

  predicate DeliveredEvent(v: View, st: D.State, e: S.Event) {
    GuestCallOf(v, st, e.notification, e.answers).Some? ==> Delivered(e.notification, e.answers)
  }

  /** Every file a guest call opened reached the tracee. */
  predicate AllDelivered(v: View, st: D.State, events: seq<S.Event>)
    requires D.CursorsInRange(st)
    decreases |events|
  {
    events != [] ==>
      && DeliveredEvent(v, st, events[0])
      && AllDelivered(v, StateAfter(v, st, events[0]), events[1..])
  }

  lemma TargetIsNormal(v: View, st: D.State, n: D.Notification, a: D.Answers)
    requires Clean(v) && S.Invariant(v, st) && S.GoodAnswers(a) && GuestCallOf(v, st, n, a).Some?
    ensures NormalCall(GuestCallOf(v, st, n, a).value)
    ensures !D.HasNul(Resolve(v, Start(GuestCallOf(v, st, n, a).value)))
  {
    var c := GuestCallOf(v, st, n, a).value;
    match c {
      case Change(p, _) => S.ResolvedNormal(v, st, a, n.pid, S.DirectoryArgument(n), a.path);
      case Move(p, q) =>
        S.ResolvedNormal(v, st, a, n.pid, n.call.dirfd, a.path);
        S.ResolvedNormal(v, st, a, n.pid, n.call.newDirfd, a.other);
    }
    S.ResolveNormal(v, Start(c));
  }

  lemma CallSimulates(v: View, t: Tree, g: Sight, c: GuestCall)
    requires ValidView(v) && GuestRoundTrips(v) && NormalTree(t) && Shows(v, t, g)
    requires NormalCall(c) && Fit(v, t, c)
    ensures Simulated(v, HostResult(v, t, c), GuestResult(v, g, c))
  {
    match c {
      case Change(_, _) => ChangeSimulates(v, t, g, c);
      case Move(_, _) => MoveSimulates(v, t, g, c);
    }
  }

  lemma CallEventSimulates(v: View, st: D.State, t: Tree, g: Sight, e: S.Event, c: GuestCall)
    requires ValidView(v) && GuestRoundTrips(v) && NormalTree(t) && Shows(v, t, g)
    requires S.Invariant(v, st) && S.GoodAnswers(e.answers) && FitEvent(v, st, t, e)
    requires GuestCallOf(v, st, e.notification, e.answers) == Some(c)
    ensures NormalTree(TreeAfter(v, st, t, e)) && Shows(v, TreeAfter(v, st, t, e), SightAfter(v, st, g, e))
    ensures RepliedAsGuest(v, st, g, e) <==> Delivered(e.notification, e.answers)
  {
    TargetIsNormal(v, st, e.notification, e.answers);
    CallDone(v, st, t, e.notification, e.answers, c);
    CallSimulates(v, t, g, c);
    CallKeepsNormal(v, t, c);
  }

  lemma KernelEventSimulates(v: View, st: D.State, t: Tree, g: Sight, e: S.Event)
    requires ValidView(v) && NormalTree(t) && Shows(v, t, g)
    requires D.CursorsInRange(st) && S.GoodAnswers(e.answers) && FitEvent(v, st, t, e)
    requires GuestCallOf(v, st, e.notification, e.answers).None?
    ensures NormalTree(TreeAfter(v, st, t, e)) && Shows(v, TreeAfter(v, st, t, e), SightAfter(v, st, g, e))
  {
    OthersChangeByKernel(v, st, e.notification, e.answers);
    KernelChangeIsNormal(e.notification, e.answers);
    var c := Changed(v, st, e.notification, e.answers);
    ChangeKeepsNormal(t, c);
    UnseenIsInvisible(v, t, c);
  }

  lemma EventSimulates(v: View, st: D.State, t: Tree, g: Sight, e: S.Event)
    requires ValidView(v) && GuestRoundTrips(v) && NormalTree(t) && Shows(v, t, g)
    requires S.Invariant(v, st) && S.GoodAnswers(e.answers) && FitEvent(v, st, t, e)
    ensures NormalTree(TreeAfter(v, st, t, e)) && Shows(v, TreeAfter(v, st, t, e), SightAfter(v, st, g, e))
    ensures RepliedAsGuest(v, st, g, e) <==> DeliveredEvent(v, st, e)
  {
    var c := GuestCallOf(v, st, e.notification, e.answers);
    if c.Some? {
      CallEventSimulates(v, st, t, g, e, c.value);
    } else {
      KernelEventSimulates(v, st, t, g, e);
    }
  }

  /**
    Over any run of a view that round-trips, with the guest's calls fit and answered from the host
    tree and the kernel's own changes out of sight: the host tree, seen through the view, is on
    every projected path the guest's own tree after its own calls; and every reply to them is the
    one that tree gives, if and only if every file they opened reached the tracee.
   */
  lemma {:induction false} RunRefinesGuest(v: View, st: D.State, t: Tree, g: Sight, events: seq<S.Event>)
    requires ValidView(v) && GuestRoundTrips(v) && NormalTree(t) && Shows(v, t, g)
    requires S.Invariant(v, st) && S.GoodEvents(events) && FitRun(v, st, t, events)
    ensures Shows(v, HostRun(v, st, t, events), SightRun(v, st, g, events))
    ensures RepliesAsGuest(v, st, g, events) <==> AllDelivered(v, st, events)
    decreases |events|
  {
    if events != [] {
      var e := events[0];
      EventSimulates(v, st, t, g, e);
      S.StepKeepsInvariant(v, st, e.notification, e.answers);
      RunRefinesGuest(v, StateAfter(v, st, e), TreeAfter(v, st, t, e), SightAfter(v, st, g, e), events[1..]);
    }
  }

  /** Reply and tree are those of the guest's own call with result `r` on its tree `g`. */
  ghost predicate AnswersAndLeaves(v: View, st: D.State, t: Tree, g: Sight, e: S.Event, r: Result<Sight, int>)
    requires D.CursorsInRange(st)
  {
    && Tells(S.Answered(v, st, e.notification, e.answers), r, e.notification, e.answers)
    && Shows(v, TreeAfter(v, st, t, e), if r.Ok? then r.value else g)
  }

  lemma CallAnswer(v: View, st: D.State, g: Sight, e: S.Event, c: GuestCall)
    requires D.CursorsInRange(st) && GuestCallOf(v, st, e.notification, e.answers) == Some(c)
    ensures RepliedAsGuest(v, st, g, e) <==>
            Tells(S.Answered(v, st, e.notification, e.answers), GuestResult(v, g, c), e.notification, e.answers)
    ensures SightAfter(v, st, g, e) == if GuestResult(v, g, c).Ok? then GuestResult(v, g, c).value else g
  {
  }

  lemma CreateIsOpen(v: View, st: D.State, e: S.Event, p: Path, exclusive: bool)
    requires GuestCallOf(v, st, e.notification, e.answers) == Some(Change(p, Create(exclusive)))
    ensures e.notification.call.Open?
  {
  }

  /**
    A creating open agrees with the guest's own tree in its reply and in what it leaves if and only
    if it was not made on the host and then lost on its way to the tracee.
   */
  lemma CreatingOpenExactly(v: View, st: D.State, t: Tree, g: Sight, e: S.Event, p: Path, exclusive: bool)
    requires ValidView(v) && GuestRoundTrips(v) && NormalTree(t) && Shows(v, t, g)
    requires S.Invariant(v, st) && S.GoodAnswers(e.answers) && FitEvent(v, st, t, e)
    requires GuestCallOf(v, st, e.notification, e.answers) == Some(Change(p, Create(exclusive)))
    ensures AnswersAndLeaves(v, st, t, g, e, GuestResult(v, g, Change(p, Create(exclusive)))) <==>
            !(e.answers.host.Ok? && e.answers.inject.Err?)
  {
    CallEventSimulates(v, st, t, g, e, Change(p, Create(exclusive)));
    CallAnswer(v, st, g, e, Change(p, Create(exclusive)));
    CreateIsOpen(v, st, e, p, exclusive);
  }

  // ----- Runs need the round trip -----

  /** Every fit run from what the view shows of a tree ends with what it shows of the tree then. */
  ghost predicate RunsRefine(v: View) {
    forall st: D.State, t: Tree, events: seq<S.Event> :: RunRefines(v, st, t, events)
  }

  ghost predicate RunRefines(v: View, st: D.State, t: Tree, events: seq<S.Event>) {
    NormalTree(t) && S.Invariant(v, st) && S.GoodEvents(events) && FitRun(v, st, t, events) ==>
      Shows(v, HostRun(v, st, t, events), SightRun(v, st, Guest(v, t), events))
  }

  lemma UnshadowedDiffers(v: View, i: nat, k: nat, r: Path)
    requires Ordered(v) && i < |v| && k < |v| && i != k && !DestinationShadows(v, i, r)
    ensures v[i].destination + r != v[k].destination
  {
    assert v[i].destination != v[k].destination;
    assert !(v[i].destination < v[k].destination && v[k].destination <= v[i].destination + r);
  }

  /** Without the round trip two guest paths are one host path. */
  lemma SharedPlace(v: View) returns (x: Path, y: Path)
    requires ValidView(v) && !GuestRoundTrips(v)
    ensures Seen(v, x) && Seen(v, y) && x != y && Resolve(v, x) == Resolve(v, y)
  {
    GuestRoundTripExactly(v);
    var i, k :| 0 <= i < |v| && 0 <= k < |v| && i != k && v[i].source <= v[k].source
                && !(v[i].source != v[k].source && DestinationShadows(v, i, v[k].source[|v[i].source|..]));
    NothingShadowsItself(v, i);
    NothingShadowsItself(v, k);
    x := SeenThrough(v, i, v[k].source);
    y := SeenThrough(v, k, v[k].source);
    assert v[k].source[|v[k].source|..] == [] && v[k].destination + [] == y;
    UnshadowedDiffers(v, i, k, v[k].source[|v[i].source|..]);
  }

  /** A name that no destination has at depth `k`. */
  lemma {:induction false} LongName(v: View, k: nat) returns (n: nat)
    ensures n > 0 && forall m :: 0 <= m < |v| && |v[m].destination| > k ==> |v[m].destination[k]| < n
  {
    n := 1;
    for i := 0 to |v|
      invariant n > 0 && forall m :: 0 <= m < i && |v[m].destination| > k ==> |v[m].destination[k]| < n
    {
      if |v[i].destination| > k && |v[i].destination[k]| >= n {
        n := |v[i].destination[k]| + 1;
      }
    }
  }

  lemma FreshName(v: View, j: nat, k: nat) returns (c: Bytes)
    ensures IsName(c)
    ensures forall m :: 0 <= m < |v| && |v[m].destination| > j ==> v[m].destination[j] != c
    ensures forall m :: 0 <= m < |v| && |v[m].destination| > k ==> v[m].destination[k] != c
  {
    var a := LongName(v, j);
    var b := LongName(v, k);
    c := seq(a + b, _ => 97);
    assert c[0] == 97;
  }

  /** A name that no bind uses continues the path below its own projection. */
  lemma FreshChild(v: View, x: Path, c: Bytes)
    requires Ordered(v) && Seen(v, x) && IsName(c)
    requires forall m :: 0 <= m < |v| && |v[m].destination| > |x| ==> v[m].destination[|x|] != c
    ensures Seen(v, x + [c]) && Resolve(v, x + [c]) == Resolve(v, x) + [c]
    ensures v[ProjectionIndex(v, x + [c]).value].destination != x + [c]
  {
    ChildSelection(v, x, c);
    NormalChild(x, c);
    assert (x + [c])[|x|] == c;
  }

  function NoProcfs(): D.Procfs {
    D.Procfs(map[], map[], map[], map[], 0, map[])
  }

  /** `mkdir` of `p`, done by the host. */
  function MkdirEvent(p: Path): S.Event {
    S.Event(D.Notification(0, D.OnPath(D.Mkdir, D.AT_FDCWD)),
            D.Answers(NoProcfs(), Ok(Print(p)), Err(0), None, Ok(0), Err(0), Err(0), Err(0), Err(0), None, None,
                      false, [], [], [], {}))
  }

  lemma MkdirIsCall(v: View, p: Path)
    requires Seen(v, p)
    ensures S.GoodAnswers(MkdirEvent(p).answers)
    ensures GuestCallOf(v, D.State(map[], map[]), MkdirEvent(p).notification, MkdirEvent(p).answers) ==
            Some(Change(p, Op.Mkdir))
  {
    S.PrintNulFree(p);
    PrintRoundTrip(p);
  }

  lemma {:induction false} PreparedMounts(h: Path, s: Path)
    requires s < h
    ensures SourceMounted(Prepared(h, None), s)
  {
    var t := Prepared(h, None);
    assert s == h[..|s|];
    forall i | 0 <= i < |s| ensures Host(t)([] + s[..i]) == Some(Dir) {
      assert [] + s[..i] == h[..i] != h;
    }
    WalkDirectories(Host(t), [], s);
  }

  lemma {:induction false} PreparedMkdir(h: Path)
    ensures HostPerform(Prepared(h, None), h, Op.Mkdir) == Ok(Prepared(h, None)[h := Dir])
    ensures h !in Prepared(h, None)
    ensures NormalPath(h) ==> NormalTree(Prepared(h, None))
  {
    VictimChanges(h, Op.Mkdir);
  }

  lemma MkdirIsFit(v: View, p: Path)
    requires Ordered(v) && Seen(v, p) && v[ProjectionIndex(v, p).value].destination != p
    ensures Fit(v, Prepared(Resolve(v, p), None), Change(p, Op.Mkdir))
  {
    PreparedMounts(Resolve(v, p), v[ProjectionIndex(v, p).value].source);
  }

  /** A run of one event. */
  lemma {:induction false} OneEventRun(v: View, st: D.State, t: Tree, e: S.Event, g: Sight)
    requires D.CursorsInRange(st)
    ensures HostRun(v, st, t, [e]) == TreeAfter(v, st, t, e) && SightRun(v, st, g, [e]) == SightAfter(v, st, g, e)
    ensures FitEvent(v, st, t, e) ==> FitRun(v, st, t, [e])
    ensures S.GoodAnswers(e.answers) ==> S.GoodEvents([e])
  {
    assert [e][0] == e && [e][1..] == [];
  }

  lemma {:induction false} OneEventRefutes(v: View, st: D.State, t: Tree, e: S.Event, y: Path)
    requires NormalTree(t) && S.Invariant(v, st) && S.GoodAnswers(e.answers) && FitEvent(v, st, t, e)
    requires Seen(v, y) && SightAfter(v, st, Guest(v, t), e)(y) != GuestLook(v, TreeAfter(v, st, t, e), y)
    ensures !RunsRefine(v)
  {
    OneEventRun(v, st, t, e, Guest(v, t));
    assert !RunRefines(v, st, t, [e]);
  }

  lemma {:induction false} MkdirMade(v: View, st: D.State, x: Path)
    requires ValidView(v) && Seen(v, x) && v[ProjectionIndex(v, x).value].destination != x
    requires st == D.State(map[], map[])
    ensures var t := Prepared(Resolve(v, x), None);
            && FitEvent(v, st, t, MkdirEvent(x))
            && TreeAfter(v, st, t, MkdirEvent(x)) == t[Resolve(v, x) := Dir]
  {
    var e, t, c := MkdirEvent(x), Prepared(Resolve(v, x), None), Change(x, Op.Mkdir);
    MkdirIsCall(v, x);
    MkdirIsFit(v, x);
    PreparedMkdir(Resolve(v, x));
    TargetIsNormal(v, st, e.notification, e.answers);
    CallDone(v, st, t, e.notification, e.answers, c);
  }

  /** Elsewhere the guest's own tree stays as it was. */
  lemma MkdirElsewhere(v: View, st: D.State, g: Sight, x: Path, y: Path)
    requires Seen(v, x) && x != y && st == D.State(map[], map[])
    ensures SightAfter(v, st, g, MkdirEvent(x))(y) == g(y)
  {
    MkdirIsCall(v, x);
  }

  /** One mkdir at a place that has two guest paths shows at both, where the guest made one. */
  lemma {:induction false} MkdirShowsTwice(v: View, x: Path, y: Path)
    requires ValidView(v) && Seen(v, x) && Seen(v, y) && x != y && Resolve(v, x) == Resolve(v, y)
    requires v[ProjectionIndex(v, x).value].destination != x
    ensures !RunsRefine(v)
  {
    var st, t := D.State(map[], map[]), Prepared(Resolve(v, x), None);
    S.ResolveNormal(v, x);
    PreparedMkdir(Resolve(v, x));
    MkdirIsCall(v, x);
    MkdirMade(v, st, x);
    MkdirElsewhere(v, st, Guest(v, t), x, y);
    OneEventRefutes(v, st, t, MkdirEvent(x), y);
  }

  /** Every fit run shows the guest its own tree if and only if the view round-trips. */
  lemma RunsRefineExactly(v: View)
    requires ValidView(v)
    ensures RunsRefine(v) <==> GuestRoundTrips(v)
  {
    if GuestRoundTrips(v) {
      forall st: D.State, t: Tree, events: seq<S.Event> ensures RunRefines(v, st, t, events) {
        if NormalTree(t) && S.Invariant(v, st) && S.GoodEvents(events) && FitRun(v, st, t, events) {
          RunRefinesGuest(v, st, t, Guest(v, t), events);
        }
      }
    } else {
      var x, y := SharedPlace(v);
      var c := FreshName(v, |x|, |y|);
      FreshChild(v, x, c);
      FreshChild(v, y, c);
      assert x + [c] != y + [c] by {
        assert (x + [c])[..|x|] == x && (y + [c])[..|y|] == y;
      }
      MkdirShowsTwice(v, x + [c], y + [c]);
    }
  }
}
