/**
  The supervisor of linux/dispatch.rs and linux/execute.rs.

  `Step` gives the next state and the effects of one notification; the class
  `Supervisor` does the same in place. What procfs, the host file system, the tracee's
  memory and the kernel answer is in `Answers`.
 */
module Dispatch {
  import opened Errno
  import opened Wrappers
  import opened Paths
  import opened Bind
  import opened Getdents
  import opened Remote

  const AT_FDCWD := -100
  const MAX_ANCESTORS: nat := 16

  datatype Key = Key(tgid: nat, fd: int)

  datatype State = State(cwds: map<nat, Path>, directories: map<Key, OpenDirectory>)

  /** procfs at the time of a notification; a missing entry is a failed read. */
  datatype Procfs = Procfs(
    tgids: map<nat, nat>,
    parents: map<nat, nat>,
    cwdLinks: map<nat, Bytes>,
    fdLinks: map<Key, Bytes>,
    fdError: int,
    canonical: map<Path, Path>)

  datatype Answers = Answers(
    proc: Procfs,
    path: Result<Bytes, int>,          // the pathname read from the tracee
    other: Result<Bytes, int>,         // the second pathname, or a symlink target
    argument: Option<int>,             // errno of reading another argument structure
    host: Result<int, int>,            // the host call on the resolved path
    isDir: Result<bool, int>,          // its metadata
    listing: Result<seq<DirEntry>, int>,
    link: Result<Bytes, int>,          // what a host symlink contains
    inject: Result<nat, int>,          // adding a descriptor to the tracee
    rewrite: Option<int>,              // errno of rewriting the exec pathname
    write: Option<int>,                // errno of writing a result into the tracee
    kernelOk: bool,                    // whether a continued call then succeeds in the kernel
    landed: Path,                      // the host directory the descriptor of a fchdir refers to
    base: Path,                        // the host directory the kernel starts a relative pathname from
    otherBase: Path,                   // and the second one
    sharers: set<nat>)                 // other thread groups that share the caller's cwd

  datatype PathCall =
    | Stat(emptyPath: bool) | Access | Mkdir | Unlink(removeDir: bool) | Symlink
    | Truncate(length: int) | Chmod | Chown | Utimensat(hasTimes: bool)

  /** `create` is present when an open may create its file, and says whether it must. */
  datatype Call =
    | Exec(dirfd: int, nofollow: bool)
    | Open(dirfd: int, structured: bool, directory: bool, create: Option<bool>)
    | OnPath(kind: PathCall, dirfd: int)
    | Rename(dirfd: int, newDirfd: int, flags: nat)
    | Readlink(dirfd: int, size: nat)
    | ListDirectory(fd: int, capacity: nat)
    | Chdir
    | Fchdir(fd: int)
    | Getcwd(size: nat)
    | Unhandled

  datatype Notification = Notification(pid: nat, call: Call)

  datatype Reply = Continue | Value(value: int) | Error(errno: int) | SendFd(fd: nat)

  /** What handling a notification does besides changing the state; `Panic` is a failed unwrap. */
  datatype Effect =
    | HostCall(path: Path)
    | HostRename(old_: Path, new_: Path)
    | InjectFd(fd: nat)
    | RewritePathname(alias: Bytes)
    | WriteGuest(bytes: Bytes)
    | Panic
    | Terminal(reply: Reply)

  datatype Outcome = Outcome(state: State, effects: seq<Effect>)

  // ----- Processes and paths -----

  function ProcessKey(proc: Procfs, pid: nat): nat {
    if pid in proc.tgids then proc.tgids[pid] else pid
  }

  /** The cwd entry of `current` or of its nearest ancestor among `n` thread groups. */
  function CwdFrom(cwds: map<nat, Path>, proc: Procfs, current: nat, n: nat): Option<Path>
    decreases n
  {
    if n == 0 then None
    else if current in cwds then Some(cwds[current])
    else if current !in proc.parents then None
    else
      var parent := proc.parents[current];
      if parent == 0 || parent == current then None else CwdFrom(cwds, proc, ProcessKey(proc, parent), n - 1)
  }

  function VirtualCwd(cwds: map<nat, Path>, proc: Procfs, pid: nat): Option<Path> {
    CwdFrom(cwds, proc, ProcessKey(proc, pid), MAX_ANCESTORS)
  }

  method FindVirtualCwd(cwds: map<nat, Path>, proc: Procfs, pid: nat) returns (r: Option<Path>)
    ensures r == VirtualCwd(cwds, proc, pid)
  {
    var current := ProcessKey(proc, pid);
    for i := 0 to MAX_ANCESTORS
      invariant VirtualCwd(cwds, proc, pid) == CwdFrom(cwds, proc, current, MAX_ANCESTORS - i)
    {
      if current in cwds {
        return Some(cwds[current]);
      }
      if current !in proc.parents {
        return None;
      }
      var parent := proc.parents[current];
      if parent == 0 || parent == current {
        return None;
      }
      current := ProcessKey(proc, parent);
    }
    return None;
  }

  /** The guest path of a procfs link; an anonymous object has a relative one. */
  function GuestOfLink(v: View, link: Bytes): Path {
    if IsAbsolute(link) then VirtualForHost(v, Normalize(link)) else Normalize(link)
  }

  function ProcessCwd(v: View, proc: Procfs, pid: nat): Path {
    GuestOfLink(v, if pid in proc.cwdLinks then proc.cwdLinks[pid] else [SLASH])
  }

  /** The live descriptor still names the directory that was opened through the view. */
  predicate DirectoryMatches(v: View, proc: Procfs, pid: nat, fd: int, d: OpenDirectory) {
    && Key(pid, fd) in proc.fdLinks
    && IsAbsolute(proc.fdLinks[Key(pid, fd)])
    && var expected := Resolve(v, d.path);
       Normalize(proc.fdLinks[Key(pid, fd)])
       == if expected in proc.canonical then proc.canonical[expected] else expected
  }

  predicate Tracked(v: View, st: State, proc: Procfs, pid: nat, fd: int) {
    && Key(ProcessKey(proc, pid), fd) in st.directories
    && DirectoryMatches(v, proc, pid, fd, st.directories[Key(ProcessKey(proc, pid), fd)])
  }

  /** The directory a relative pathname starts from. */
  function Base(v: View, st: State, proc: Procfs, pid: nat, dirfd: int): Result<Path, int> {
    if dirfd == AT_FDCWD then
      match VirtualCwd(st.cwds, proc, pid)
      case Some(p) => Ok(p)
      case None => Ok(ProcessCwd(v, proc, pid))
    else if Tracked(v, st, proc, pid, dirfd) then Ok(st.directories[Key(ProcessKey(proc, pid), dirfd)].path)
    else if Key(pid, dirfd) in proc.fdLinks then Ok(GuestOfLink(v, proc.fdLinks[Key(pid, dirfd)]))
    else Err(proc.fdError)
  }

  /** An empty pathname is refused, never read as the working directory. */
  function ResolvePath(v: View, st: State, proc: Procfs, pid: nat, dirfd: int, path: Bytes): Result<Path, int> {
    if path == [] then Err(ENOENT)
    else if IsAbsolute(path) then Ok(Normalize(path))
    else match Base(v, st, proc, pid, dirfd)
      case Err(errno) => Err(errno)
      case Ok(base) => Ok(Normalize(Join(Print(base), path)))
  }

  function ReadAndResolve(v: View, st: State, proc: Procfs, pid: nat, dirfd: int, read: Result<Bytes, int>)
    : Result<Path, int>
  {
    match read
    case Err(errno) => Err(errno)
    case Ok(path) => ResolvePath(v, st, proc, pid, dirfd, path)
  }

  predicate HasNul(p: Path) {
    exists i :: 0 <= i < |p| && 0 in p[i]
  }

  // ----- What each handler does -----

  function Fail(errno: int): seq<Effect> {
    [Terminal(Error(errno))]
  }

  function Pass(): seq<Effect> {
    [Terminal(Continue)]
  }

  function Written(bytes: Bytes, write: Option<int>, value: int): seq<Effect> {
    match write
    case None => [WriteGuest(bytes), Terminal(Value(value))]
    case Some(errno) => Fail(errno)
  }

  /** Opening the program, handing it over and rewriting the pathname to its alias. */
  function InjectEffects(target: Path, a: Answers): seq<Effect> {
    match (a.host, a.inject, a.rewrite)
    case (Err(errno), _, _) => [HostCall(target), Terminal(Error(errno))]
    case (Ok(_), Err(errno), _) => [HostCall(target), Terminal(Error(errno))]
    case (Ok(_), Ok(fd), Some(errno)) => [HostCall(target), InjectFd(fd), Terminal(Error(errno))]
    case (Ok(_), Ok(fd), None) =>
      [HostCall(target), InjectFd(fd), RewritePathname(ExecutableAlias(fd)), Terminal(Continue)]
  }

  function ExecEffects(v: View, st: State, pid: nat, dirfd: int, nofollow: bool, a: Answers): seq<Effect> {
    if a.path == Ok([]) then Pass()
    else match ReadAndResolve(v, st, a.proc, pid, dirfd, a.path)
      case Err(errno) => Fail(errno)
      case Ok(p) =>
        if !Projects(v, p) then Pass()
        else if nofollow then Fail(ENOTSUP)
        else if HasNul(Resolve(v, p)) then Fail(EINVAL)
        else InjectEffects(Resolve(v, p), a)
  }

  function OpenStep(v: View, st: State, pid: nat, dirfd: int, structured: bool, directory: bool, a: Answers): Outcome {
    if structured && a.argument.Some? then Outcome(st, Fail(a.argument.value))
    else match ReadAndResolve(v, st, a.proc, pid, dirfd, a.path)
      case Err(errno) => Outcome(st, Fail(errno))
      case Ok(p) =>
        if !Projects(v, p) then Outcome(st, Pass())
        else if HasNul(Resolve(v, p)) then Outcome(st, Fail(EINVAL))
        else match (a.host, a.inject)
          case (Err(errno), _) => Outcome(st, [HostCall(Resolve(v, p)), Terminal(Error(errno))])
          case (Ok(_), Err(errno)) => Outcome(st, [HostCall(Resolve(v, p)), Terminal(Error(errno))])
          case (Ok(_), Ok(fd)) =>
            var effects := [HostCall(Resolve(v, p)), Terminal(SendFd(fd))];
            if (directory || a.isDir == Ok(true)) && a.listing.Ok? then
              Outcome(st.(directories := st.directories[Key(ProcessKey(a.proc, pid), fd) :=
                                            OpenDirectory(p, a.listing.value, 0)]), effects)
            else Outcome(st, effects)
  }

  /** Calls that take one path, act on the host and answer zero. */
  function OnPathEffects(v: View, st: State, pid: nat, kind: PathCall, dirfd: int, a: Answers): seq<Effect> {
    if kind.Symlink? && a.other.Err? then Fail(a.other.error)
    else if kind == Stat(true) && a.path == Ok([]) then Pass()
    else match ReadAndResolve(v, st, a.proc, pid, dirfd, a.path)
      case Err(errno) => Fail(errno)
      case Ok(p) =>
        if !Projects(v, p) then Pass()
        else if kind.Access? && HasNul(Resolve(v, p)) then [Panic]
        else if !kind.Mkdir? && !kind.Unlink? && !kind.Symlink? && HasNul(Resolve(v, p)) then Fail(EINVAL)
        else if kind == Utimensat(true) && a.argument.Some? then Fail(a.argument.value)
        else match a.host
          case Err(errno) => [HostCall(Resolve(v, p)), Terminal(Error(errno))]
          case Ok(_) =>
            if kind.Stat? && a.write.Some? then [HostCall(Resolve(v, p)), Terminal(Error(a.write.value))]
            else if kind.Stat? then [HostCall(Resolve(v, p)), WriteGuest([]), Terminal(Value(0))]
            else [HostCall(Resolve(v, p)), Terminal(Value(0))]
  }

  function RenameEffects(v: View, st: State, pid: nat, dirfd: int, newDirfd: int, flags: nat, a: Answers): seq<Effect> {
    if flags != 0 then Fail(ENOTSUP)
    else match (ReadAndResolve(v, st, a.proc, pid, dirfd, a.path),
                ReadAndResolve(v, st, a.proc, pid, newDirfd, a.other))
      case (Err(errno), _) => Fail(errno)
      case (Ok(_), Err(errno)) => Fail(errno)
      case (Ok(p), Ok(q)) =>
        if !Projects(v, p) && !Projects(v, q) then Pass()
        else if !SameProjection(v, p, q) then Fail(EXDEV)
        else [HostRename(Resolve(v, p), Resolve(v, q))]
             + match a.host { case Ok(_) => [Terminal(Value(0))] case Err(errno) => Fail(errno) }
  }

  function Shortest(size: nat, bytes: Bytes): Bytes {
    if size < |bytes| then bytes[..size] else bytes
  }

  function ReadlinkEffects(v: View, st: State, pid: nat, dirfd: int, size: nat, a: Answers): seq<Effect> {
    match ReadAndResolve(v, st, a.proc, pid, dirfd, a.path)
    case Err(errno) => Fail(errno)
    case Ok(p) =>
      if IsOwnProcCwd(p, pid, ProcessKey(a.proc, pid)) then
        match VirtualCwd(st.cwds, a.proc, pid)
        case None => Pass()
        case Some(cwd) => Written(Shortest(size, Print(cwd)), a.write, |Shortest(size, Print(cwd))|)
      else if !Projects(v, p) then Pass()
      else [HostCall(Resolve(v, p))]
           + match a.link
             case Err(errno) => Fail(errno)
             case Ok(link) => Written(Shortest(size, link), a.write, |Shortest(size, link)|)
  }

  predicate CursorsInRange(st: State) {
    forall k :: k in st.directories ==> st.directories[k].cursor <= |st.directories[k].entries|
  }

  function ListStep(v: View, st: State, pid: nat, fd: int, capacity: nat, a: Answers): Outcome
    requires CursorsInRange(st)
  {
    var key := Key(ProcessKey(a.proc, pid), fd);
    if key !in st.directories then Outcome(st, Pass())
    else if !Tracked(v, st, a.proc, pid, fd) then Outcome(st.(directories := st.directories - {key}), Pass())
    else
      var (d, reply) := Page(st.directories[key], capacity, a.write);
      var st' := st.(directories := st.directories[key := d]);
      match reply
      case Delivered(output) => Outcome(st', Written(output, None, |output|))
      case TooSmall => Outcome(st', Fail(EINVAL))
      case WriteFailed(errno) => Outcome(st', Fail(errno))
  }

  /** Enters the guest directory `p`. */
  function EnterStep(v: View, st: State, pid: nat, p: Path, a: Answers): Outcome {
    var moved := st.(cwds := st.cwds[ProcessKey(a.proc, pid) := p]);
    if !Projects(v, p) then Outcome(moved, Pass())
    else match a.isDir
      case Err(errno) => Outcome(st, [HostCall(Resolve(v, p)), Terminal(Error(errno))])
      case Ok(false) => Outcome(st, [HostCall(Resolve(v, p))] + Fail(ENOTDIR))
      case Ok(true) =>
        Outcome(moved, [HostCall(Resolve(v, p))] + if Resolve(v, p) == p then Pass() else [Terminal(Value(0))])
  }

  function ChdirStep(v: View, st: State, pid: nat, a: Answers): Outcome {
    match ReadAndResolve(v, st, a.proc, pid, AT_FDCWD, a.path)
    case Err(errno) => Outcome(st, Fail(errno))
    case Ok(p) => EnterStep(v, st, pid, p, a)
  }

  function FchdirStep(v: View, st: State, pid: nat, fd: int, a: Answers): Outcome {
    var key := Key(ProcessKey(a.proc, pid), fd);
    if key !in st.directories then Outcome(st, Pass())
    else if !Tracked(v, st, a.proc, pid, fd) then Outcome(st.(directories := st.directories - {key}), Pass())
    else EnterStep(v, st, pid, st.directories[key].path, a)
  }

  function GetcwdEffects(st: State, pid: nat, size: nat, a: Answers): seq<Effect> {
    match VirtualCwd(st.cwds, a.proc, pid)
    case None => Pass()
    case Some(cwd) =>
      var bytes := Print(cwd) + [0];
      if |bytes| > size then Fail(ERANGE) else Written(bytes, a.write, |bytes|)
  }

  function Step(v: View, st: State, n: Notification, a: Answers): (o: Outcome)
    requires CursorsInRange(st)
    ensures CursorsInRange(o.state)
  {
    match n.call
    case Exec(dirfd, nofollow) => Outcome(st, ExecEffects(v, st, n.pid, dirfd, nofollow, a))
    case Open(dirfd, structured, directory, _) => OpenStep(v, st, n.pid, dirfd, structured, directory, a)
    case OnPath(kind, dirfd) => Outcome(st, OnPathEffects(v, st, n.pid, kind, dirfd, a))
    case Rename(dirfd, newDirfd, flags) => Outcome(st, RenameEffects(v, st, n.pid, dirfd, newDirfd, flags, a))
    case Readlink(dirfd, size) => Outcome(st, ReadlinkEffects(v, st, n.pid, dirfd, size, a))
    case ListDirectory(fd, capacity) => ListStep(v, st, n.pid, fd, capacity, a)
    case Chdir => ChdirStep(v, st, n.pid, a)
    case Fchdir(fd) => FchdirStep(v, st, n.pid, fd, a)
    case Getcwd(size) => Outcome(st, GetcwdEffects(st, n.pid, size, a))
    case Unhandled => Outcome(st, Pass())
  }

  // ----- The supervisor in place -----

  class Supervisor {
    const view: View
    var cwds: map<nat, Path>
    var directories: map<Key, OpenDirectory>
    var log: seq<Effect>

    ghost function Abstract(): State
      reads this
    {
      State(cwds, directories)
    }

    constructor (view: View)
      ensures this.view == view && Abstract() == State(map[], map[]) && log == []
    {
      this.view := view;
      cwds, directories, log := map[], map[], [];
    }

    method Emit(e: Effect)
      modifies this`log
      ensures log == old(log) + [e]
    {
      log := log + [e];
    }

    method Respond(reply: Reply)
      modifies this`log
      ensures log == old(log) + [Terminal(reply)]
    {
      Emit(Terminal(reply));
    }

    method WriteAndRespond(bytes: Bytes, write: Option<int>, value: int)
      modifies this`log
      ensures log == old(log) + Written(bytes, write, value)
    {
      match write {
        case None =>
          Emit(WriteGuest(bytes));
          Respond(Value(value));
        case Some(errno) => Respond(Error(errno));
      }
    }

    method Resolved(pid: nat, dirfd: int, path: Bytes, proc: Procfs) returns (r: Result<Path, int>)
      ensures r == ResolvePath(view, Abstract(), proc, pid, dirfd, path)
    {
      if path == [] {
        return Err(ENOENT);
      }
      if IsAbsolute(path) {
        return Ok(Normalize(path));
      }
      var key := Key(ProcessKey(proc, pid), dirfd);
      var base: Path := [];
      if dirfd == AT_FDCWD {
        var cwd := FindVirtualCwd(cwds, proc, pid);
        match cwd {
          case Some(p) => base := p;
          case None => base := ProcessCwd(view, proc, pid);
        }
      } else if key in directories && DirectoryMatches(view, proc, pid, dirfd, directories[key]) {
        base := directories[key].path;
      } else if Key(pid, dirfd) in proc.fdLinks {
        base := GuestOfLink(view, proc.fdLinks[Key(pid, dirfd)]);
      } else {
        return Err(proc.fdError);
      }
      return Ok(Normalize(Join(Print(base), path)));
    }

    method ReadResolved(pid: nat, dirfd: int, read: Result<Bytes, int>, proc: Procfs) returns (r: Result<Path, int>)
      ensures r == ReadAndResolve(view, Abstract(), proc, pid, dirfd, read)
    {
      match read {
        case Err(errno) => return Err(errno);
        case Ok(path) => r := Resolved(pid, dirfd, path, proc);
      }
    }

    method InjectProgram(target: Path, a: Answers)
      modifies this`log
      ensures log == old(log) + InjectEffects(target, a)
    {
      Emit(HostCall(target));
      if a.host.Err? {
        Respond(Error(a.host.error));
        return;
      }
      if a.inject.Err? {
        Respond(Error(a.inject.error));
        return;
      }
      Emit(InjectFd(a.inject.value));
      if a.rewrite.Some? {
        Respond(Error(a.rewrite.value));
        return;
      }
      Emit(RewritePathname(ExecutableAlias(a.inject.value)));
      Respond(Continue);
    }

    method HandleExec(pid: nat, dirfd: int, nofollow: bool, a: Answers)
      modifies this`log
      ensures log == old(log) + ExecEffects(view, Abstract(), pid, dirfd, nofollow, a)
    {
      if a.path == Ok([]) {
        Respond(Continue);
        return;
      }
      var resolved := ReadResolved(pid, dirfd, a.path, a.proc);
      if resolved.Err? {
        Respond(Error(resolved.error));
        return;
      }
      var p := resolved.value;
      if !Projects(view, p) {
        Respond(Continue);
        return;
      }
      if nofollow {
        Respond(Error(ENOTSUP));
        return;
      }
      var target := Resolve(view, p);
      if HasNul(target) {
        Respond(Error(EINVAL));
        return;
      }
      InjectProgram(target, a);
    }

    method HandleOpen(pid: nat, dirfd: int, structured: bool, directory: bool, a: Answers)
      modifies this`log, this`directories
      ensures var o := OpenStep(view, old(Abstract()), pid, dirfd, structured, directory, a);
              Abstract() == o.state && log == old(log) + o.effects
    {
      if structured && a.argument.Some? {
        Respond(Error(a.argument.value));
        return;
      }
      var resolved := ReadResolved(pid, dirfd, a.path, a.proc);
      if resolved.Err? {
        Respond(Error(resolved.error));
        return;
      }
      var p := resolved.value;
      if !Projects(view, p) {
        Respond(Continue);
        return;
      }
      var target := Resolve(view, p);
      if HasNul(target) {
        Respond(Error(EINVAL));
        return;
      }
      Emit(HostCall(target));
      if a.host.Err? {
        Respond(Error(a.host.error));
        return;
      }
      if a.inject.Err? {
        Respond(Error(a.inject.error));
        return;
      }
      Respond(SendFd(a.inject.value));
      if directory || a.isDir == Ok(true) {
        if a.listing.Ok? {
          var key := Key(ProcessKey(a.proc, pid), a.inject.value);
          directories := directories[key := OpenDirectory(p, a.listing.value, 0)];
        }
      }
    }

    method HandleOnPath(pid: nat, kind: PathCall, dirfd: int, a: Answers)
      modifies this`log
      ensures log == old(log) + OnPathEffects(view, Abstract(), pid, kind, dirfd, a)
    {
      if kind.Symlink? && a.other.Err? {
        Respond(Error(a.other.error));
        return;
      }
      if kind == Stat(true) && a.path == Ok([]) {
        Respond(Continue);
        return;
      }
      var resolved := ReadResolved(pid, dirfd, a.path, a.proc);
      if resolved.Err? {
        Respond(Error(resolved.error));
        return;
      }
      var p := resolved.value;
      if !Projects(view, p) {
        Respond(Continue);
        return;
      }
      var target := Resolve(view, p);
      if kind.Access? && HasNul(target) {
        Emit(Panic);
        return;
      }
      if !kind.Mkdir? && !kind.Unlink? && !kind.Symlink? && HasNul(target) {
        Respond(Error(EINVAL));
        return;
      }
      if kind == Utimensat(true) && a.argument.Some? {
        Respond(Error(a.argument.value));
        return;
      }
      Emit(HostCall(target));
      if a.host.Err? {
        Respond(Error(a.host.error));
      } else if kind.Stat? {
        WriteAndRespond([], a.write, 0);
      } else {
        Respond(Value(0));
      }
    }

    method HandleRename(pid: nat, dirfd: int, newDirfd: int, flags: nat, a: Answers)
      modifies this`log
      ensures log == old(log) + RenameEffects(view, Abstract(), pid, dirfd, newDirfd, flags, a)
    {
      if flags != 0 {
        Respond(Error(ENOTSUP));
        return;
      }
      var source := ReadResolved(pid, dirfd, a.path, a.proc);
      if source.Err? {
        Respond(Error(source.error));
        return;
      }
      var renamed := ReadResolved(pid, newDirfd, a.other, a.proc);
      if renamed.Err? {
        Respond(Error(renamed.error));
        return;
      }
      var p, q := source.value, renamed.value;
      if !Projects(view, p) && !Projects(view, q) {
        Respond(Continue);
        return;
      }
      if !Projects(view, p) || !Projects(view, q) || !SameProjection(view, p, q) {
        Respond(Error(EXDEV));
        return;
      }
      Emit(HostRename(Resolve(view, p), Resolve(view, q)));
      match a.host {
        case Ok(_) => Respond(Value(0));
        case Err(errno) => Respond(Error(errno));
      }
    }

    method HandleReadlink(pid: nat, dirfd: int, size: nat, a: Answers)
      modifies this`log
      ensures log == old(log) + ReadlinkEffects(view, Abstract(), pid, dirfd, size, a)
    {
      var resolved := ReadResolved(pid, dirfd, a.path, a.proc);
      if resolved.Err? {
        Respond(Error(resolved.error));
        return;
      }
      var p := resolved.value;
      if IsOwnProcCwd(p, pid, ProcessKey(a.proc, pid)) {
        var cwd := FindVirtualCwd(cwds, a.proc, pid);
        if cwd.None? {
          Respond(Continue);
          return;
        }
        var bytes := Shortest(size, Print(cwd.value));
        WriteAndRespond(bytes, a.write, |bytes|);
        return;
      }
      if !Projects(view, p) {
        Respond(Continue);
        return;
      }
      Emit(HostCall(Resolve(view, p)));
      if a.link.Err? {
        Respond(Error(a.link.error));
        return;
      }
      var bytes := Shortest(size, a.link.value);
      WriteAndRespond(bytes, a.write, |bytes|);
    }

    method HandleListDirectory(pid: nat, fd: int, capacity: nat, a: Answers)
      requires CursorsInRange(Abstract())
      modifies this`log, this`directories
      ensures var o := ListStep(view, old(Abstract()), pid, fd, capacity, a);
              Abstract() == o.state && log == old(log) + o.effects
    {
      var key := Key(ProcessKey(a.proc, pid), fd);
      if key !in directories {
        Respond(Continue);
        return;
      }
      if !DirectoryMatches(view, a.proc, pid, fd, directories[key]) {
        directories := directories - {key};
        Respond(Continue);
        return;
      }
      var d := directories[key];
      var output, next := FillPage(d.entries, d.cursor, capacity);
      directories := directories[key := d.(cursor := next)];
      if output == [] && next < |d.entries| {
        assert next == d.cursor by {
          CursorStops(d.entries, d.cursor, capacity);
          NonEmptyPage(d.entries, d.cursor, next);
        }
        Respond(Error(EINVAL));
        return;
      }
      assert next == d.cursor ==> d.cursor == |d.entries|;
      WriteAndRespond(output, a.write, |output|);
    }

    method Enter(pid: nat, p: Path, a: Answers)
      modifies this`log, this`cwds
      ensures var o := EnterStep(view, old(Abstract()), pid, p, a);
              Abstract() == o.state && log == old(log) + o.effects
    {
      if !Projects(view, p) {
        cwds := cwds[ProcessKey(a.proc, pid) := p];
        Respond(Continue);
        return;
      }
      var target := Resolve(view, p);
      Emit(HostCall(target));
      match a.isDir {
        case Ok(isDir) =>
          if !isDir {
            Respond(Error(ENOTDIR));
            return;
          }
        case Err(errno) =>
          Respond(Error(errno));
          return;
      }
      cwds := cwds[ProcessKey(a.proc, pid) := p];
      if target == p {
        Respond(Continue);
      } else {
        Respond(Value(0));
      }
    }

    method HandleChdir(pid: nat, a: Answers)
      modifies this`log, this`cwds
      ensures var o := ChdirStep(view, old(Abstract()), pid, a);
              Abstract() == o.state && log == old(log) + o.effects
    {
      var resolved := ReadResolved(pid, AT_FDCWD, a.path, a.proc);
      match resolved {
        case Err(errno) => Respond(Error(errno));
        case Ok(p) => Enter(pid, p, a);
      }
    }

    method HandleFchdir(pid: nat, fd: int, a: Answers)
      modifies this`log, this`cwds, this`directories
      ensures var o := FchdirStep(view, old(Abstract()), pid, fd, a);
              Abstract() == o.state && log == old(log) + o.effects
    {
      var key := Key(ProcessKey(a.proc, pid), fd);
      if key !in directories {
        Respond(Continue);
        return;
      }
      if !DirectoryMatches(view, a.proc, pid, fd, directories[key]) {
        directories := directories - {key};
        Respond(Continue);
        return;
      }
      Enter(pid, directories[key].path, a);
    }

    method HandleGetcwd(pid: nat, size: nat, a: Answers)
      modifies this`log
      ensures log == old(log) + GetcwdEffects(Abstract(), pid, size, a)
    {
      var cwd := FindVirtualCwd(cwds, a.proc, pid);
      if cwd.None? {
        Respond(Continue);
        return;
      }
      var bytes := Print(cwd.value) + [0];
      if |bytes| > size {
        Respond(Error(ERANGE));
        return;
      }
      WriteAndRespond(bytes, a.write, |bytes|);
    }

    method Handle(n: Notification, a: Answers)
      requires CursorsInRange(Abstract())
      modifies this
      ensures var o := Step(view, old(Abstract()), n, a);
              Abstract() == o.state && log == old(log) + o.effects
    {
      match n.call {
        case Exec(dirfd, nofollow) => HandleExec(n.pid, dirfd, nofollow, a);
        case Open(dirfd, structured, directory, _) => HandleOpen(n.pid, dirfd, structured, directory, a);
        case OnPath(kind, dirfd) => HandleOnPath(n.pid, kind, dirfd, a);
        case Rename(dirfd, newDirfd, flags) => HandleRename(n.pid, dirfd, newDirfd, flags, a);
        case Readlink(dirfd, size) => HandleReadlink(n.pid, dirfd, size, a);
        case ListDirectory(fd, capacity) => HandleListDirectory(n.pid, fd, capacity, a);
        case Chdir => HandleChdir(n.pid, a);
        case Fchdir(fd) => HandleFchdir(n.pid, fd, a);
        case Getcwd(size) => HandleGetcwd(n.pid, size, a);
        case Unhandled => Respond(Continue);
      }
    }
  }

  lemma {:induction false} NonEmptyPage(es: seq<DirEntry>, lo: nat, hi: nat)
    requires lo <= hi <= |es|
    ensures Encode(es, lo, hi) == [] <==> lo == hi
  {
    if lo < hi {
      assert |Record(es[lo], lo + 1)| > 0;
    }
  }
}
