/**
  What each mutating system call does, from the notification to the tree, said of the nodes of the
  tree alone: when it succeeds and what it leaves, at the host path it acts on and, below a
  destination, at the guest path; forwarded by the supervisor or made by the kernel itself.
 */
module Deeds {
  import opened Errno
  import opened Wrappers
  import opened Paths
  import opened Bind
  import opened HostView
  import opened TreeMoves
  import opened HostChanges
  import opened Visibility
  import D = Dispatch
  import S = Supervision
  import R = Refinement

  // ----- Trees, node by node -----

  /** Everything above `h` is a directory. */
  ghost predicate DirectoriesTo(t: Tree, h: Path) {
    forall i :: 0 <= i < |h| ==> Look(t, h[..i]) == Some(Dir)
  }

  /** `t'` is `t` with the node at `h` replaced by `n`, or removed. */
  ghost predicate Becomes(t: Tree, t': Tree, h: Path, n: Option<Node>) {
    forall x :: Look(t', x) == if x == h then n else Look(t, x)
  }

  ghost predicate NothingIn(t: Tree, h: Path) {
    forall c: Bytes :: h + [c] !in t
  }

  lemma {:induction false} WalkExactly(look: Path -> Option<Node>, root: Path, q: Path)
    ensures Walk(look, root, q).None? <==> forall i :: 0 <= i < |q| ==> look(root + q[..i]) == Some(Dir)
    decreases |q|
  {
    if forall i :: 0 <= i < |q| ==> look(root + q[..i]) == Some(Dir) {
      WalkDirectories(look, root, q);
    } else {
      var i :| 0 <= i < |q| && look(root + q[..i]) != Some(Dir);
      WalkStops(look, root, q, i);
    }
  }

  lemma {:induction false} WalkStops(look: Path -> Option<Node>, root: Path, q: Path, i: nat)
    requires i < |q| && look(root + q[..i]) != Some(Dir)
    ensures Walk(look, root, q).Some?
    decreases |q|
  {
    if i == 0 {
      assert root + q[..0] == root;
    } else if look(root) == Some(Dir) {
      assert root + [q[0]] + q[1..][..i - 1] == root + q[..i];
      WalkStops(look, root + [q[0]], q[1..], i - 1);
    }
  }

  lemma {:induction false} HostWalkExactly(t: Tree, h: Path)
    ensures Walk(Host(t), [], h).None? <==> DirectoriesTo(t, h)
    ensures Host(t)([] + h) == Look(t, h)
  {
    WalkExactly(Host(t), [], h);
    forall i | 0 <= i < |h| ensures Host(t)([] + h[..i]) == Look(t, h[..i]) {
      HostAt(t, h[..i]);
    }
    HostAt(t, h);
  }

  lemma HostEmptyExactly(t: Tree, h: Path)
    ensures HostEmpty(t, h) <==> NothingIn(t, h)
  {
    if x :| x in t && h <= x && |x| == |h| + 1 {
      assert x == h + [x[|h|]];
    }
  }

  // ----- Who makes the call, and whether it succeeds -----

  predicate TakesOnePath(n: D.Notification) {
    n.call.OnPath? || n.call.Open?
  }

  /** The supervisor makes the call at the path `p` resolves to; the host decides by its tree whether it succeeds. */
  ghost predicate Forwarded(v: View, st: D.State, n: D.Notification, a: D.Answers, t: Tree, p: Path, success: bool) {
    && D.CursorsInRange(st) && TakesOnePath(n) && S.ArgumentsRead(n, a)
    && S.Target(v, st, n, a) == Some(p) && Projects(v, p) && !D.HasNul(Resolve(v, p))
    && success == a.host.Ok?
    && (success <==> Applied(t, Changed(v, st, n, a.(host := Ok(0)))).Ok?)
  }

  /** The call is continued; the kernel makes it at `h`, and decides by the tree whether it succeeds. */
  ghost predicate LeftToKernel(v: View, st: D.State, n: D.Notification, a: D.Answers, t: Tree, h: Path, success: bool) {
    && D.CursorsInRange(st) && TakesOnePath(n) && S.ArgumentsRead(n, a)
    && D.Step(v, st, n, a).effects == [D.Terminal(D.Continue)]
    && a.path.Ok? && h == Lexical(a.base, a.path.value)
    && success == a.kernelOk
    && (success <==> Applied(t, Changed(v, st, n, a.(kernelOk := true))).Ok?)
  }

  /** Either way the call acts at the host path `h`. */
  ghost predicate ActsAt(v: View, st: D.State, n: D.Notification, a: D.Answers, t: Tree, h: Path, success: bool) {
    || LeftToKernel(v, st, n, a, t, h, success)
    || exists p :: Forwarded(v, st, n, a, t, p, success) && h == Resolve(v, p)
  }

  function TreeAfter(v: View, st: D.State, n: D.Notification, a: D.Answers, t: Tree): Tree
    requires D.CursorsInRange(st)
  {
    After(t, Changed(v, st, n, a))
  }

  lemma ForwardedChange(v: View, st: D.State, n: D.Notification, a: D.Answers, p: Path)
    requires D.CursorsInRange(st) && TakesOnePath(n) && S.ArgumentsRead(n, a) && OpOf(n.call, a).Some?
    requires S.Target(v, st, n, a) == Some(p) && Projects(v, p) && !D.HasNul(Resolve(v, p))
    ensures Changed(v, st, n, a) == if a.host.Ok? then At(Resolve(v, p), OpOf(n.call, a).value) else Unchanged
    ensures S.Answered(v, st, n, a) == R.HostsReply(n, a)
  {
    R.ChangeForwards(v, st, n, a, p, OpOf(n.call, a).value);
    R.ForwardedChange(v, st, n, a, D.HostCall(Resolve(v, p)), R.HostsReply(n, a));
  }

  lemma {:induction false} ContinuedChange(v: View, st: D.State, n: D.Notification, a: D.Answers)
    requires D.CursorsInRange(st) && TakesOnePath(n) && OpOf(n.call, a).Some? && a.path.Ok?
    requires D.Step(v, st, n, a).effects == [D.Terminal(D.Continue)]
    ensures Changed(v, st, n, a) ==
            if a.kernelOk then At(Lexical(a.base, a.path.value), OpOf(n.call, a).value) else Unchanged
  {
    SingleEffect(n, a, D.Terminal(D.Continue));
  }

  /** What the answer of the host, or of the kernel, does not decide. */
  lemma SameStep(v: View, st: D.State, n: D.Notification, a: D.Answers)
    requires D.CursorsInRange(st) && TakesOnePath(n)
    ensures D.Step(v, st, n, a.(kernelOk := true)).effects == D.Step(v, st, n, a).effects
    ensures S.Target(v, st, n, a.(host := Ok(0))) == S.Target(v, st, n, a)
  {
  }

  lemma IfTheHostDoes(v: View, st: D.State, n: D.Notification, a: D.Answers, p: Path, op: Op)
    requires D.CursorsInRange(st) && TakesOnePath(n) && S.ArgumentsRead(n, a) && OpOf(n.call, a) == Some(op)
    requires S.Target(v, st, n, a) == Some(p) && Projects(v, p) && !D.HasNul(Resolve(v, p))
    ensures Changed(v, st, n, a.(host := Ok(0))) == At(Resolve(v, p), op)
  {
    SameStep(v, st, n, a);
    ForwardedChange(v, st, n, a.(host := Ok(0)), p);
  }

  lemma IfTheKernelDoes(v: View, st: D.State, n: D.Notification, a: D.Answers, op: Op)
    requires D.CursorsInRange(st) && TakesOnePath(n) && OpOf(n.call, a) == Some(op) && a.path.Ok?
    requires D.Step(v, st, n, a).effects == [D.Terminal(D.Continue)]
    ensures Changed(v, st, n, a.(kernelOk := true)) == At(Lexical(a.base, a.path.value), op)
  {
    SameStep(v, st, n, a);
    ContinuedChange(v, st, n, a.(kernelOk := true));
  }

  lemma KernelPerformed(v: View, st: D.State, n: D.Notification, a: D.Answers, t: Tree, h: Path, success: bool, op: Op)
    requires LeftToKernel(v, st, n, a, t, h, success) && OpOf(n.call, a) == Some(op)
    ensures success <==> HostPerform(t, h, op).Ok?
    ensures TreeAfter(v, st, n, a, t) == if success then HostPerform(t, h, op).value else t
  {
    ContinuedChange(v, st, n, a);
    IfTheKernelDoes(v, st, n, a, op);
    assert Applied(t, At(h, op)) == HostPerform(t, h, op);
  }

  lemma SupervisorPerformed(v: View, st: D.State, n: D.Notification, a: D.Answers, t: Tree, p: Path, success: bool,
                            op: Op)
    requires Forwarded(v, st, n, a, t, p, success) && OpOf(n.call, a) == Some(op)
    ensures success <==> HostPerform(t, Resolve(v, p), op).Ok?
    ensures TreeAfter(v, st, n, a, t) == if success then HostPerform(t, Resolve(v, p), op).value else t
    ensures S.Answered(v, st, n, a) == R.HostsReply(n, a)
  {
    ForwardedChange(v, st, n, a, p);
    IfTheHostDoes(v, st, n, a, p, op);
    assert Applied(t, At(Resolve(v, p), op)) == HostPerform(t, Resolve(v, p), op);
  }

  /** A call that acts at `h` is the operation on the tree there, and succeeds as that does. */
  lemma Performed(v: View, st: D.State, n: D.Notification, a: D.Answers, t: Tree, h: Path, success: bool, op: Op)
    requires ActsAt(v, st, n, a, t, h, success) && OpOf(n.call, a) == Some(op)
    ensures success <==> HostPerform(t, h, op).Ok?
    ensures TreeAfter(v, st, n, a, t) == if success then HostPerform(t, h, op).value else t
  {
    if LeftToKernel(v, st, n, a, t, h, success) {
      KernelPerformed(v, st, n, a, t, h, success, op);
    } else {
      var p :| Forwarded(v, st, n, a, t, p, success) && h == Resolve(v, p);
      SupervisorPerformed(v, st, n, a, t, p, success, op);
    }
  }

  /** The operation, node by node. */
  lemma PerformedAt(t: Tree, h: Path, op: Op)
    ensures HostPerform(t, h, op).Ok? <==>
            RefusedAtOnce(op).None? && DirectoriesTo(t, h) && PerformOn(Look(t, h), h == [], HostEmpty(t, h), op).Ok?
    ensures HostPerform(t, h, op).Ok? ==>
              Becomes(t, HostPerform(t, h, op).value, h, PerformOn(Look(t, h), h == [], HostEmpty(t, h), op).value)
  {
    HostWalkExactly(t, h);
  }

  // ----- Why the host refuses -----

  /** The first thing above `h` that is no directory is its ancestor of length `i`. */
  ghost predicate BlockedAt(t: Tree, h: Path, i: nat) {
    i < |h| && Look(t, h[..i]) != Some(Dir) && forall j :: 0 <= j < i ==> Look(t, h[..j]) == Some(Dir)
  }

  lemma {:induction false} WalkBlocked(look: Path -> Option<Node>, root: Path, q: Path, i: nat)
    requires i < |q| && look(root + q[..i]) != Some(Dir)
    requires forall j :: 0 <= j < i ==> look(root + q[..j]) == Some(Dir)
    ensures Walk(look, root, q) == Walk(look, root + q[..i], q[i..])
    decreases i
  {
    assert root + q[..0] == root;
    if i == 0 {
      assert q[0..] == q;
    } else {
      forall j | 0 <= j < i ensures root + [q[0]] + q[1..][..j] == root + q[..j + 1] {
      }
      WalkBlocked(look, root + [q[0]], q[1..], i - 1);
      assert q[1..][i - 1..] == q[i..];
    }
  }

  /** A call that gets no further than `i` fails with what is there: nothing, a file, or a link. */
  lemma BlockedWith(t: Tree, h: Path, i: nat, op: Op)
    requires BlockedAt(t, h, i) && RefusedAtOnce(op).None?
    ensures HostPerform(t, h, op) == Err(if h[..i] !in t then ENOENT else if t[h[..i]].File? then ENOTDIR else ELOOP)
  {
    forall j | 0 <= j <= i ensures Host(t)([] + h[..j]) == Look(t, h[..j]) {
      HostAt(t, h[..j]);
    }
    WalkBlocked(Host(t), [], h, i);
  }

  // ----- At the host path -----

  lemma MkdirDoes(v: View, st: D.State, n: D.Notification, a: D.Answers, t: Tree, h: Path, success: bool)
    requires ActsAt(v, st, n, a, t, h, success) && n.call.OnPath? && n.call.kind.Mkdir?
    ensures success <==> DirectoriesTo(t, h) && h !in t
    ensures Becomes(t, TreeAfter(v, st, n, a, t), h, if success then Some(Dir) else Look(t, h))
  {
    Performed(v, st, n, a, t, h, success, Mkdir);
    PerformedAt(t, h, Mkdir);
  }

  /** unlink removes exactly what is there and no directory. */
  lemma UnlinkDoes(v: View, st: D.State, n: D.Notification, a: D.Answers, t: Tree, h: Path, success: bool)
    requires ActsAt(v, st, n, a, t, h, success) && n.call.OnPath? && n.call.kind == D.Unlink(false)
    ensures success <==> DirectoriesTo(t, h) && h in t && t[h] != Dir
    ensures Becomes(t, TreeAfter(v, st, n, a, t), h, if success then None else Look(t, h))
  {
    Performed(v, st, n, a, t, h, success, Unlink);
    PerformedAt(t, h, Unlink);
  }

  lemma RemovedNode(found: Option<Node>, top: bool, empty: bool)
    ensures var r := PerformOn(found, top, empty, Rmdir);
            && (r.Ok? <==> found == Some(Dir) && !top && empty)
            && (r.Ok? ==> r.value == None)
  {
  }

  /** rmdir, or unlinkat with AT_REMOVEDIR, removes exactly an empty directory that is not the root. */
  lemma RmdirDoes(v: View, st: D.State, n: D.Notification, a: D.Answers, t: Tree, h: Path, success: bool)
    requires ActsAt(v, st, n, a, t, h, success) && n.call.OnPath? && n.call.kind == D.Unlink(true)
    ensures success <==> h != [] && DirectoriesTo(t, h) && Look(t, h) == Some(Dir) && NothingIn(t, h)
    ensures Becomes(t, TreeAfter(v, st, n, a, t), h, if success then None else Look(t, h))
  {
    Performed(v, st, n, a, t, h, success, Rmdir);
    PerformedAt(t, h, Rmdir);
    RemovedNode(Look(t, h), h == [], HostEmpty(t, h));
    HostEmptyExactly(t, h);
  }

  /** symlink leaves a link that holds what the tracee passed. */
  lemma SymlinkDoes(v: View, st: D.State, n: D.Notification, a: D.Answers, t: Tree, h: Path, success: bool)
    requires ActsAt(v, st, n, a, t, h, success) && n.call.OnPath? && n.call.kind.Symlink?
    ensures a.other.Ok?
    ensures success <==> a.other.value != [] && DirectoriesTo(t, h) && h !in t
    ensures Becomes(t, TreeAfter(v, st, n, a, t), h, if success then Some(Link(a.other.value)) else Look(t, h))
  {
    assert S.ArgumentsRead(n, a);
    Performed(v, st, n, a, t, h, success, Symlink(a.other.value));
    PerformedAt(t, h, Symlink(a.other.value));
  }

  /** The file has the length asked for: its own bytes and then zeros. */
  ghost predicate Cut(old_: Bytes, new_: Bytes, length: int) {
    |new_| == length && forall i :: 0 <= i < |new_| ==> new_[i] == if i < |old_| then old_[i] else 0
  }

  lemma TruncatedNode(found: Option<Node>, top: bool, empty: bool, length: int)
    ensures RefusedAtOnce(Truncate(length)).None? <==> length >= 0
    ensures var r := PerformOn(found, top, empty, Truncate(length));
            && (r.Ok? <==> found.Some? && found.value.File?)
            && (r.Ok? && length >= 0 ==>
                  r.value.Some? && r.value.value.File? && Cut(found.value.data, r.value.value.data, length))
  {
  }

  lemma TruncatedTree(t: Tree, h: Path, length: int)
    ensures HostPerform(t, h, Truncate(length)).Ok? <==> length >= 0 && DirectoriesTo(t, h) && h in t && t[h].File?
    ensures HostPerform(t, h, Truncate(length)).Ok? ==>
              exists data :: && Cut(t[h].data, data, length)
                             && Becomes(t, HostPerform(t, h, Truncate(length)).value, h, Some(File(data)))
  {
    var op := Truncate(length);
    PerformedAt(t, h, op);
    TruncatedNode(Look(t, h), h == [], HostEmpty(t, h), length);
    if HostPerform(t, h, op).Ok? {
      var left := PerformOn(Look(t, h), h == [], HostEmpty(t, h), op).value;
      assert left == Some(File(left.value.data));
      assert Becomes(t, HostPerform(t, h, op).value, h, Some(File(left.value.data)));
    }
  }

  lemma TruncateDoes(v: View, st: D.State, n: D.Notification, a: D.Answers, t: Tree, h: Path, success: bool)
    requires ActsAt(v, st, n, a, t, h, success) && n.call.OnPath? && n.call.kind.Truncate?
    ensures success <==> n.call.kind.length >= 0 && DirectoriesTo(t, h) && h in t && t[h].File?
    ensures success ==> exists data :: && Cut(t[h].data, data, n.call.kind.length)
                                       && Becomes(t, TreeAfter(v, st, n, a, t), h, Some(File(data)))
    ensures !success ==> TreeAfter(v, st, n, a, t) == t
  {
    Performed(v, st, n, a, t, h, success, Truncate(n.call.kind.length));
    TruncatedTree(t, h, n.call.kind.length);
  }

  lemma CreatedNode(found: Option<Node>, top: bool, empty: bool, exclusive: bool)
    ensures var r := PerformOn(found, top, empty, Create(exclusive));
            && (r.Ok? <==> found.None? || (!exclusive && found.value.File?))
            && (r.Ok? ==> r.value == if found.None? then Some(File([])) else found)
  {
  }

  /** A creating open makes an empty file; one that must create it refuses whatever is there. */
  lemma CreateDoes(v: View, st: D.State, n: D.Notification, a: D.Answers, t: Tree, h: Path, success: bool)
    requires ActsAt(v, st, n, a, t, h, success) && n.call.Open? && n.call.create.Some?
    ensures success <==> DirectoriesTo(t, h) && (h !in t || (!n.call.create.value && t[h].File?))
    ensures Becomes(t, TreeAfter(v, st, n, a, t), h, if success && h !in t then Some(File([])) else Look(t, h))
  {
    Performed(v, st, n, a, t, h, success, Create(n.call.create.value));
    PerformedAt(t, h, Create(n.call.create.value));
    CreatedNode(Look(t, h), h == [], HostEmpty(t, h), n.call.create.value);
  }

  // ----- Rename -----

  ghost predicate CanRename(t: Tree, a: Path, b: Path) {
    && DirectoriesTo(t, a) && DirectoriesTo(t, b) && a in t
    && (a == b || (Apart(a, b) && (|| b !in t
                                   || (t[a] != Dir && t[b] != Dir)
                                   || (t[a] == Dir && t[b] == Dir && NothingIn(t, b)))))
  }

  /** The subtree at `a` is at `b` and nowhere else; what was at `b` is gone, and the rest is as it was. */
  ghost predicate Moved(t: Tree, t': Tree, a: Path, b: Path) {
    forall x :: Look(t', x) ==
                if a == b then Look(t, x)
                else if b <= x then Look(t, a + x[|b|..])
                else if a <= x then None else Look(t, x)
  }

  lemma RenamedExactly(t: Tree, a: Path, b: Path)
    ensures HostRename(t, a, b).Ok? <==> CanRename(t, a, b)
    ensures HostRename(t, a, b).Ok? ==> Moved(t, HostRename(t, a, b).value, a, b)
  {
    HostWalkExactly(t, a);
    HostWalkExactly(t, b);
    HostEmptyExactly(t, b);
    if HostRename(t, a, b).Ok? && a != b {
      RenameIncomparable(t, a, b);
      forall x ensures Look(MoveTree(t, a, b), x) ==
                       if b <= x then Look(t, a + x[|b|..]) else if a <= x then None else Look(t, x) {
        MoveLook(t, a, b, x);
      }
    }
  }

  /** The supervisor renames what two paths of one projection resolve to; the host decides by its tree. */
  ghost predicate RenameForwarded(v: View, st: D.State, n: D.Notification, a: D.Answers, t: Tree, p: Path, q: Path,
                                  success: bool) {
    && D.CursorsInRange(st) && n.call.Rename? && n.call.flags == 0
    && D.ReadAndResolve(v, st, a.proc, n.pid, n.call.dirfd, a.path) == Ok(p)
    && D.ReadAndResolve(v, st, a.proc, n.pid, n.call.newDirfd, a.other) == Ok(q)
    && SameProjection(v, p, q)
    && success == a.host.Ok?
    && (success <==> Applied(t, Changed(v, st, n, a.(host := Ok(0)))).Ok?)
  }

  /** The rename is continued; the kernel makes it between the paths it resolves itself. */
  ghost predicate RenameLeftToKernel(v: View, st: D.State, n: D.Notification, a: D.Answers, t: Tree,
                                     from: Path, to: Path, success: bool) {
    && D.CursorsInRange(st) && n.call.Rename? && D.Step(v, st, n, a).effects == [D.Terminal(D.Continue)]
    && a.path.Ok? && a.other.Ok?
    && from == Lexical(a.base, a.path.value) && to == Lexical(a.otherBase, a.other.value)
    && success == a.kernelOk
    && (success <==> Applied(t, Changed(v, st, n, a.(kernelOk := true))).Ok?)
  }

  lemma RenameChange(v: View, st: D.State, n: D.Notification, a: D.Answers, p: Path, q: Path)
    requires D.CursorsInRange(st) && R.GuestCallOf(v, st, n, a) == Some(R.Move(p, q))
    ensures Changed(v, st, n, a) == if a.host.Ok? then Renamed(Resolve(v, p), Resolve(v, q)) else Unchanged
    ensures S.Answered(v, st, n, a) == if a.host.Ok? then D.Value(0) else D.Error(a.host.error)
  {
    R.MoveForwards(v, st, n, a, p, q);
    R.ForwardedChange(v, st, n, a, D.HostRename(Resolve(v, p), Resolve(v, q)), R.HostsReply(n, a));
  }

  /** A forwarded rename succeeds, and moves, as the two host ends allow. */
  lemma RenameDoes(v: View, st: D.State, n: D.Notification, a: D.Answers, t: Tree, p: Path, q: Path, success: bool)
    requires RenameForwarded(v, st, n, a, t, p, q, success)
    ensures success <==> CanRename(t, Resolve(v, p), Resolve(v, q))
    ensures success ==> Moved(t, TreeAfter(v, st, n, a, t), Resolve(v, p), Resolve(v, q))
    ensures !success ==> TreeAfter(v, st, n, a, t) == t
    ensures S.Answered(v, st, n, a) == if success then D.Value(0) else D.Error(a.host.error)
  {
    RenameChange(v, st, n, a, p, q);
    RenameChange(v, st, n, a.(host := Ok(0)), p, q);
    RenamedExactly(t, Resolve(v, p), Resolve(v, q));
    assert Applied(t, Renamed(Resolve(v, p), Resolve(v, q))) == HostRename(t, Resolve(v, p), Resolve(v, q));
  }

  lemma {:induction false} ContinuedRename(v: View, st: D.State, n: D.Notification, a: D.Answers)
    requires D.CursorsInRange(st) && n.call.Rename? && D.Step(v, st, n, a).effects == [D.Terminal(D.Continue)]
    requires a.path.Ok? && a.other.Ok?
    ensures Changed(v, st, n, a) ==
            if a.kernelOk then Renamed(Lexical(a.base, a.path.value), Lexical(a.otherBase, a.other.value))
            else Unchanged
  {
    SingleEffect(n, a, D.Terminal(D.Continue));
  }

  lemma ContinuedRenameDoes(v: View, st: D.State, n: D.Notification, a: D.Answers, t: Tree, from: Path, to: Path,
                            success: bool)
    requires RenameLeftToKernel(v, st, n, a, t, from, to, success)
    ensures success <==> CanRename(t, from, to)
    ensures success ==> Moved(t, TreeAfter(v, st, n, a, t), from, to)
    ensures !success ==> TreeAfter(v, st, n, a, t) == t
  {
    ContinuedRename(v, st, n, a);
    ContinuedRename(v, st, n, a.(kernelOk := true));
    RenamedExactly(t, from, to);
    assert Applied(t, Renamed(from, to)) == HostRename(t, from, to);
  }

  // ----- At the guest path -----

  /** `p` is strictly below a destination whose source is a directory that can be reached. */
  ghost predicate Mounted(v: View, t: Tree, p: Path) {
    && Ordered(v) && Projects(v, p) && v[ProjectionIndex(v, p).value].destination != p
    && SourceMounted(t, v[ProjectionIndex(v, p).value].source)
  }

  /** For the guest everything between the destination and `p` is a directory. */
  ghost predicate GuestDirectoriesTo(v: View, t: Tree, p: Path)
    requires Projects(v, p)
  {
    forall i :: |v[ProjectionIndex(v, p).value].destination| <= i < |p| ==> GuestLook(v, t, p[..i]) == Some(Dir)
  }

  /** In its projection, and wherever else a path resolves elsewhere, the guest sees a change at `p` alone. */
  ghost predicate GuestBecomes(v: View, t: Tree, t': Tree, p: Path, n: Option<Node>) {
    forall x :: SameProjection(v, p, x) || Resolve(v, x) != Resolve(v, p) ==>
                  GuestLook(v, t', x) == if x == p then n else GuestLook(v, t, x)
  }

  lemma PrefixAt(d: Path, p: Path, i: nat)
    requires d <= p && i <= |p| - |d|
    ensures d + p[|d|..][..i] == p[..|d| + i]
  {
  }

  lemma {:induction false} WalkAlong(look: Path -> Option<Node>, d: Path, p: Path)
    requires d <= p
    ensures Walk(look, d, p[|d|..]).None? <==> forall i :: |d| <= i < |p| ==> look(p[..i]) == Some(Dir)
  {
    var q := p[|d|..];
    WalkExactly(look, d, q);
    if i :| 0 <= i < |q| && look(d + q[..i]) != Some(Dir) {
      PrefixAt(d, p, i);
    } else {
      forall i | |d| <= i < |p| ensures look(p[..i]) == Some(Dir) {
        PrefixAt(d, p, i - |d|);
        assert look(d + q[..i - |d|]) == Some(Dir);
      }
    }
  }

  lemma GuestWalkExactly(v: View, t: Tree, p: Path)
    requires Projects(v, p)
    ensures var d := v[ProjectionIndex(v, p).value].destination;
            Walk(Guest(v, t), d, p[|d|..]).None? <==> GuestDirectoriesTo(v, t, p)
  {
    var d := v[ProjectionIndex(v, p).value].destination;
    WalkAlong(Guest(v, t), d, p);
    assert forall i :: |d| <= i < |p| ==> Guest(v, t)(p[..i]) == GuestLook(v, t, p[..i]);
  }

  lemma GuestDirectoriesExactly(v: View, t: Tree, p: Path)
    requires Mounted(v, t, p)
    ensures DirectoriesTo(t, Resolve(v, p)) <==> GuestDirectoriesTo(v, t, p)
  {
    GuestWalkWhole(v, t, p);
    HostWalkExactly(t, Resolve(v, p));
    GuestWalkExactly(v, t, p);
  }

  lemma SeenChange(v: View, t: Tree, t': Tree, p: Path, n: Option<Node>)
    requires Projects(v, p) && Becomes(t, t', Resolve(v, p), n)
    ensures GuestBecomes(v, t, t', p, n)
  {
    forall x | SameProjection(v, p, x) || Resolve(v, x) != Resolve(v, p)
      ensures GuestLook(v, t', x) == if x == p then n else GuestLook(v, t, x)
    {
      if SameProjection(v, p, x) {
        ResolveInjective(v, p, x);
      }
    }
  }

  /** What a forwarded call that takes one path is answered. */
  lemma ForwardedAnswer(v: View, st: D.State, n: D.Notification, a: D.Answers, t: Tree, p: Path, success: bool)
    requires Forwarded(v, st, n, a, t, p, success) && OpOf(n.call, a).Some? && n.call.OnPath?
    ensures ActsAt(v, st, n, a, t, Resolve(v, p), success)
    ensures S.Answered(v, st, n, a) == if success then D.Value(0) else D.Error(a.host.error)
  {
    ForwardedChange(v, st, n, a, p);
  }

  lemma MkdirInView(v: View, st: D.State, n: D.Notification, a: D.Answers, t: Tree, p: Path, success: bool)
    requires Forwarded(v, st, n, a, t, p, success) && Mounted(v, t, p) && n.call.OnPath? && n.call.kind.Mkdir?
    ensures success <==> GuestDirectoriesTo(v, t, p) && GuestLook(v, t, p).None?
    ensures GuestBecomes(v, t, TreeAfter(v, st, n, a, t), p, if success then Some(Dir) else GuestLook(v, t, p))
    ensures S.Answered(v, st, n, a) == if success then D.Value(0) else D.Error(a.host.error)
  {
    ForwardedAnswer(v, st, n, a, t, p, success);
    MkdirDoes(v, st, n, a, t, Resolve(v, p), success);
    GuestDirectoriesExactly(v, t, p);
    SeenChange(v, t, TreeAfter(v, st, n, a, t), p, if success then Some(Dir) else GuestLook(v, t, p));
  }

  lemma UnlinkInView(v: View, st: D.State, n: D.Notification, a: D.Answers, t: Tree, p: Path, success: bool)
    requires Forwarded(v, st, n, a, t, p, success) && Mounted(v, t, p)
    requires n.call.OnPath? && n.call.kind == D.Unlink(false)
    ensures success <==> GuestDirectoriesTo(v, t, p) && GuestLook(v, t, p).Some? && GuestLook(v, t, p) != Some(Dir)
    ensures GuestBecomes(v, t, TreeAfter(v, st, n, a, t), p, if success then None else GuestLook(v, t, p))
    ensures S.Answered(v, st, n, a) == if success then D.Value(0) else D.Error(a.host.error)
  {
    ForwardedAnswer(v, st, n, a, t, p, success);
    UnlinkDoes(v, st, n, a, t, Resolve(v, p), success);
    GuestDirectoriesExactly(v, t, p);
    SeenChange(v, t, TreeAfter(v, st, n, a, t), p, if success then None else GuestLook(v, t, p));
  }

  /** For the guest the directory must be empty too, unless a bind hangs directly below it. */
  lemma RmdirInView(v: View, st: D.State, n: D.Notification, a: D.Answers, t: Tree, p: Path, success: bool)
    requires Forwarded(v, st, n, a, t, p, success) && Mounted(v, t, p)
    requires n.call.OnPath? && n.call.kind == D.Unlink(true)
    requires !NestedChild(v, p) && forall m :: 0 <= m < |v| ==> v[m].source in t
    ensures success <==> GuestDirectoriesTo(v, t, p) && GuestLook(v, t, p) == Some(Dir) && GuestEmpty(v, t, p)
    ensures GuestBecomes(v, t, TreeAfter(v, st, n, a, t), p, if success then None else GuestLook(v, t, p))
    ensures S.Answered(v, st, n, a) == if success then D.Value(0) else D.Error(a.host.error)
  {
    ForwardedAnswer(v, st, n, a, t, p, success);
    RmdirDoes(v, st, n, a, t, Resolve(v, p), success);
    GuestDirectoriesExactly(v, t, p);
    EmptinessAgrees(v, t, p);
    HostEmptyExactly(t, Resolve(v, p));
    assert Resolve(v, p) != [];
    SeenChange(v, t, TreeAfter(v, st, n, a, t), p, if success then None else GuestLook(v, t, p));
  }

  lemma SymlinkInView(v: View, st: D.State, n: D.Notification, a: D.Answers, t: Tree, p: Path, success: bool)
    requires Forwarded(v, st, n, a, t, p, success) && Mounted(v, t, p) && n.call.OnPath? && n.call.kind.Symlink?
    ensures a.other.Ok?
    ensures success <==> a.other.value != [] && GuestDirectoriesTo(v, t, p) && GuestLook(v, t, p).None?
    ensures GuestBecomes(v, t, TreeAfter(v, st, n, a, t), p,
                         if success then Some(Link(a.other.value)) else GuestLook(v, t, p))
    ensures S.Answered(v, st, n, a) == if success then D.Value(0) else D.Error(a.host.error)
  {
    assert S.ArgumentsRead(n, a);
    ForwardedAnswer(v, st, n, a, t, p, success);
    SymlinkDoes(v, st, n, a, t, Resolve(v, p), success);
    GuestDirectoriesExactly(v, t, p);
    SeenChange(v, t, TreeAfter(v, st, n, a, t), p, if success then Some(Link(a.other.value)) else GuestLook(v, t, p));
  }

  lemma TruncateInView(v: View, st: D.State, n: D.Notification, a: D.Answers, t: Tree, p: Path, success: bool)
    requires Forwarded(v, st, n, a, t, p, success) && Mounted(v, t, p) && n.call.OnPath? && n.call.kind.Truncate?
    ensures success <==> && n.call.kind.length >= 0 && GuestDirectoriesTo(v, t, p)
                         && GuestLook(v, t, p).Some? && GuestLook(v, t, p).value.File?
    ensures success ==> exists data :: && Cut(GuestLook(v, t, p).value.data, data, n.call.kind.length)
                                       && GuestBecomes(v, t, TreeAfter(v, st, n, a, t), p, Some(File(data)))
    ensures S.Answered(v, st, n, a) == if success then D.Value(0) else D.Error(a.host.error)
  {
    ForwardedAnswer(v, st, n, a, t, p, success);
    TruncateDoes(v, st, n, a, t, Resolve(v, p), success);
    GuestDirectoriesExactly(v, t, p);
    if success {
      var data :| && Cut(t[Resolve(v, p)].data, data, n.call.kind.length)
                  && Becomes(t, TreeAfter(v, st, n, a, t), Resolve(v, p), Some(File(data)));
      SeenChange(v, t, TreeAfter(v, st, n, a, t), p, Some(File(data)));
    }
  }

  lemma CreateInView(v: View, st: D.State, n: D.Notification, a: D.Answers, t: Tree, p: Path, success: bool)
    requires Forwarded(v, st, n, a, t, p, success) && Mounted(v, t, p) && n.call.Open? && n.call.create.Some?
    ensures var found := GuestLook(v, t, p);
            && (success <==> && GuestDirectoriesTo(v, t, p)
                             && (found.None? || (!n.call.create.value && found.value.File?)))
            && GuestBecomes(v, t, TreeAfter(v, st, n, a, t), p,
                            if success && found.None? then Some(File([])) else found)
    ensures S.Answered(v, st, n, a) ==
            if !success then D.Error(a.host.error)
            else if a.inject.Err? then D.Error(a.inject.error) else D.SendFd(a.inject.value)
  {
    ForwardedChange(v, st, n, a, p);
    CreateDoes(v, st, n, a, t, Resolve(v, p), success);
    GuestDirectoriesExactly(v, t, p);
    SeenChange(v, t, TreeAfter(v, st, n, a, t), p,
               if success && GuestLook(v, t, p).None? then Some(File([])) else GuestLook(v, t, p));
  }
}
