/**
  What a notification changes on the host: by a call the supervisor makes at a resolved path,
  or by a call the kernel makes itself once the supervisor has let it continue.
 */
module HostChanges {
  import opened Wrappers
  import opened Paths
  import opened Bind
  import opened HostView
  import D = Dispatch

  datatype HostChange = Unchanged | At(path: Path, op: Op) | Renamed(source: Path, target: Path)

  /** The operation on one path behind a notification that may change the tree. */
  function OpOf(call: D.Call, a: D.Answers): Option<Op> {
    match call
    case OnPath(kind, _) => (
      match kind
      case Mkdir => Some(Op.Mkdir)
      case Unlink(removeDir) => Some(if removeDir then Op.Rmdir else Op.Unlink)
      case Symlink => if a.other.Ok? then Some(Op.Symlink(a.other.value)) else None
      case Truncate(length) => Some(Op.Truncate(length))
      case _ => None)
    case Open(_, _, _, create) => if create.Some? then Some(Op.Create(create.value)) else None
    case _ => None
  }

  /** A continued call: the kernel resolves the guest's own pathnames from its own directories. */
  function KernelChange(n: D.Notification, a: D.Answers): HostChange {
    if a.path.Err? then Unchanged
    else if n.call.Rename? then
      if a.other.Ok? then Renamed(Lexical(a.base, a.path.value), Lexical(a.otherBase, a.other.value)) else Unchanged
    else if OpOf(n.call, a).Some? then At(Lexical(a.base, a.path.value), OpOf(n.call, a).value)
    else Unchanged
  }

  /** What one effect of a notification changes, when it succeeds. */
  function ChangeBy(n: D.Notification, a: D.Answers, e: D.Effect): HostChange {
    match e
    case HostCall(h) => if a.host.Ok? && OpOf(n.call, a).Some? then At(h, OpOf(n.call, a).value) else Unchanged
    case HostRename(x, y) => if a.host.Ok? then Renamed(x, y) else Unchanged
    case Terminal(Continue) => if a.kernelOk then KernelChange(n, a) else Unchanged
    case _ => Unchanged
  }

  /** What a list of effects changes: no notification changes the host more than once. */
  function ChangeOf(n: D.Notification, a: D.Answers, effects: seq<D.Effect>): HostChange
    decreases |effects|
  {
    if effects == [] then Unchanged
    else if ChangeBy(n, a, effects[0]) != Unchanged then ChangeBy(n, a, effects[0])
    else ChangeOf(n, a, effects[1..])
  }

  function Changed(v: View, st: D.State, n: D.Notification, a: D.Answers): HostChange
    requires D.CursorsInRange(st)
  {
    ChangeOf(n, a, D.Step(v, st, n, a).effects)
  }

  /** The change on a tree, or none when the tree refuses it. */
  function Applied(t: Tree, c: HostChange): Result<Tree, int> {
    match c
    case Unchanged => Ok(t)
    case At(h, op) => HostPerform(t, h, op)
    case Renamed(a, b) => HostRename(t, a, b)
  }

  lemma {:induction false} SingleEffect(n: D.Notification, a: D.Answers, e: D.Effect)
    ensures ChangeOf(n, a, [e]) == ChangeBy(n, a, e)
  {
    assert [e][1..] == [];
  }

  lemma {:induction false} CallThenReply(n: D.Notification, a: D.Answers, e: D.Effect, reply: D.Reply)
    requires reply != D.Continue
    ensures ChangeOf(n, a, [e, D.Terminal(reply)]) == ChangeBy(n, a, e)
  {
    assert [e, D.Terminal(reply)][1..] == [D.Terminal(reply)];
    SingleEffect(n, a, D.Terminal(reply));
  }

  /** Effects that change nothing. */
  predicate Harmless(n: D.Notification, a: D.Answers, effects: seq<D.Effect>) {
    forall i :: 0 <= i < |effects| ==> ChangeBy(n, a, effects[i]) == Unchanged
  }

  lemma {:induction false} HarmlessChange(n: D.Notification, a: D.Answers, effects: seq<D.Effect>)
    requires Harmless(n, a, effects)
    ensures ChangeOf(n, a, effects) == Unchanged
    decreases |effects|
  {
    if effects != [] {
      assert ChangeBy(n, a, effects[0]) == Unchanged;
      HarmlessChange(n, a, effects[1..]);
    }
  }

  /** Neither a rename nor a call that may change one path. */
  predicate Inert(n: D.Notification, a: D.Answers) {
    !n.call.Rename? && OpOf(n.call, a).None?
  }

  predicate RenamesNothing(effects: seq<D.Effect>) {
    forall i :: 0 <= i < |effects| ==> !effects[i].HostRename?
  }

  /** An inert notification without a rename changes nothing, whatever it does. */
  lemma {:induction false} InertIsHarmless(n: D.Notification, a: D.Answers, effects: seq<D.Effect>)
    requires Inert(n, a) && RenamesNothing(effects)
    ensures ChangeOf(n, a, effects) == Unchanged
  {
    HarmlessChange(n, a, effects);
  }

  lemma OpenRenamesNothing(v: View, st: D.State, pid: nat, dirfd: int, structured: bool, directory: bool, a: D.Answers)
    ensures RenamesNothing(D.OpenStep(v, st, pid, dirfd, structured, directory, a).effects)
  {
    var effects := D.OpenStep(v, st, pid, dirfd, structured, directory, a).effects;
    assert |effects| <= 2 && effects[|effects| - 1].Terminal? && (|effects| == 2 ==> effects[0].HostCall?);
  }

  lemma PathCallRenamesNothing(v: View, st: D.State, pid: nat, kind: D.PathCall, dirfd: int, a: D.Answers)
    ensures RenamesNothing(D.OnPathEffects(v, st, pid, kind, dirfd, a))
  {
  }

  lemma ExecRenamesNothing(v: View, st: D.State, pid: nat, dirfd: int, nofollow: bool, a: D.Answers)
    ensures RenamesNothing(D.ExecEffects(v, st, pid, dirfd, nofollow, a))
  {
  }

  lemma ReadlinkRenamesNothing(v: View, st: D.State, pid: nat, dirfd: int, size: nat, a: D.Answers)
    ensures RenamesNothing(D.ReadlinkEffects(v, st, pid, dirfd, size, a))
  {
  }

  lemma EnterRenamesNothing(v: View, st: D.State, pid: nat, p: Path, a: D.Answers)
    ensures RenamesNothing(D.EnterStep(v, st, pid, p, a).effects)
  {
  }

  lemma {:induction false} EnteringChangesNothing(v: View, st: D.State, n: D.Notification, a: D.Answers)
    requires D.CursorsInRange(st) && (n.call.Chdir? || n.call.Fchdir?)
    ensures Changed(v, st, n, a) == Unchanged
  {
    match n.call {
      case Chdir =>
        var p := D.ReadAndResolve(v, st, a.proc, n.pid, D.AT_FDCWD, a.path);
        if p.Ok? {
          EnterRenamesNothing(v, st, n.pid, p.value, a);
        }
      case Fchdir(fd) =>
        if D.Tracked(v, st, a.proc, n.pid, fd) {
          EnterRenamesNothing(v, st, n.pid, st.directories[D.Key(D.ProcessKey(a.proc, n.pid), fd)].path, a);
        }
      case _ =>
    }
    InertIsHarmless(n, a, D.Step(v, st, n, a).effects);
  }

  lemma {:induction false} ReadingChangesNothing(v: View, st: D.State, n: D.Notification, a: D.Answers)
    requires D.CursorsInRange(st)
    requires n.call.Exec? || n.call.Readlink? || n.call.ListDirectory? || n.call.Getcwd? || n.call.Unhandled?
    ensures Changed(v, st, n, a) == Unchanged
  {
    match n.call {
      case Exec(dirfd, nofollow) => ExecRenamesNothing(v, st, n.pid, dirfd, nofollow, a);
      case Readlink(dirfd, size) => ReadlinkRenamesNothing(v, st, n.pid, dirfd, size, a);
      case _ =>
    }
    InertIsHarmless(n, a, D.Step(v, st, n, a).effects);
  }

  lemma {:induction false} InertChangesNothing(v: View, st: D.State, n: D.Notification, a: D.Answers)
    requires D.CursorsInRange(st) && (n.call.Open? || n.call.OnPath?) && Inert(n, a)
    ensures Changed(v, st, n, a) == Unchanged
  {
    match n.call {
      case Open(dirfd, structured, directory, _) =>
        OpenRenamesNothing(v, st, n.pid, dirfd, structured, directory, a);
      case OnPath(kind, dirfd) => PathCallRenamesNothing(v, st, n.pid, kind, dirfd, a);
      case _ =>
    }
    InertIsHarmless(n, a, D.Step(v, st, n, a).effects);
  }
}
