/**
  The guest cwd over whole runs: what is recorded for a thread group, where its processes
  really are, what a descendant inherits, and what the kernel makes of a pathname it is
  left to resolve.
 */
module GuestCwd {
  import opened Errno
  import opened Wrappers
  import opened Paths
  import opened Bind
  import opened Remote
  import opened Dispatch
  import opened Supervision
  import H = HostChanges
  import T = HostView

  // ----- The nearest entry -----

  /** The thread groups consulted for a cwd, nearest first. */
  function Ancestors(proc: Procfs, current: nat, n: nat): (r: seq<nat>)
    ensures |r| <= n && (n > 0 ==> r != [] && r[0] == current)
    decreases n
  {
    if n == 0 then []
    else if current !in proc.parents || proc.parents[current] == 0 || proc.parents[current] == current then [current]
    else [current] + Ancestors(proc, ProcessKey(proc, proc.parents[current]), n - 1)
  }

  ghost predicate Nearest(cwds: map<nat, Path>, chain: seq<nat>, i: nat) {
    i < |chain| && chain[i] in cwds && forall j :: 0 <= j < i ==> chain[j] !in cwds
  }

  /** The cwd is the entry of the nearest of at most `n` thread groups, and none without one. */
  lemma {:induction false} NearestAncestor(cwds: map<nat, Path>, proc: Procfs, current: nat, n: nat)
    ensures forall i: nat :: Nearest(cwds, Ancestors(proc, current, n), i) ==>
                          CwdFrom(cwds, proc, current, n) == Some(cwds[Ancestors(proc, current, n)[i]])
    ensures (forall i :: 0 <= i < |Ancestors(proc, current, n)| ==> Ancestors(proc, current, n)[i] !in cwds) ==>
              CwdFrom(cwds, proc, current, n) == None
    decreases n
  {
    var chain := Ancestors(proc, current, n);
    if n > 0 && current in proc.parents && proc.parents[current] != 0 && proc.parents[current] != current {
      var parent := ProcessKey(proc, proc.parents[current]);
      var above := Ancestors(proc, parent, n - 1);
      NearestAncestor(cwds, proc, parent, n - 1);
      assert chain == [current] + above;
      assert forall j :: 0 <= j < |above| ==> above[j] == chain[j + 1];
      forall i: nat | Nearest(cwds, chain, i) ensures CwdFrom(cwds, proc, current, n) == Some(cwds[chain[i]]) {
        if i > 0 {
          assert forall j :: 0 <= j < i - 1 ==> above[j] == chain[j + 1];
          assert Nearest(cwds, above, i - 1);
        }
      }
    }
  }

  // ----- What is recorded -----

  /** The path a notification records for its own thread group, if any. */
  function Recorded(v: View, st: State, n: Notification, a: Answers): Option<Path> {
    var asked := match n.call
      case Chdir => Target(v, st, n, a)
      case Fchdir(fd) =>
        if Tracked(v, st, a.proc, n.pid, fd)
        then Some(st.directories[Key(ProcessKey(a.proc, n.pid), fd)].path) else None
      case _ => None;
    if asked.Some? && (!Projects(v, asked.value) || a.isDir == Ok(true)) then asked else None
  }

  lemma OpenKeepsCwds(v: View, st: State, pid: nat, dirfd: int, structured: bool, directory: bool, a: Answers)
    ensures OpenStep(v, st, pid, dirfd, structured, directory, a).state.cwds == st.cwds
  {
  }

  lemma ListKeepsCwds(v: View, st: State, pid: nat, fd: int, capacity: nat, a: Answers)
    requires CursorsInRange(st)
    ensures ListStep(v, st, pid, fd, capacity, a).state.cwds == st.cwds
  {
  }

  lemma OnlyDirectoryCallsMove(v: View, st: State, n: Notification, a: Answers)
    requires CursorsInRange(st) && !n.call.Chdir? && !n.call.Fchdir?
    ensures Step(v, st, n, a).state.cwds == st.cwds
  {
    match n.call {
      case Open(dirfd, structured, directory, _) => OpenKeepsCwds(v, st, n.pid, dirfd, structured, directory, a);
      case ListDirectory(fd, capacity) => ListKeepsCwds(v, st, n.pid, fd, capacity, a);
      case _ =>
    }
  }

  lemma EnterRecords(v: View, st: State, pid: nat, p: Path, a: Answers)
    ensures EnterStep(v, st, pid, p, a).state ==
            if !Projects(v, p) || a.isDir == Ok(true) then st.(cwds := st.cwds[ProcessKey(a.proc, pid) := p]) else st
  {
  }

  /** A notification records exactly that, and touches no other entry. */
  lemma CwdsAfter(v: View, st: State, n: Notification, a: Answers)
    requires CursorsInRange(st)
    ensures Step(v, st, n, a).state.cwds ==
            if Recorded(v, st, n, a).Some?
            then st.cwds[ProcessKey(a.proc, n.pid) := Recorded(v, st, n, a).value] else st.cwds
  {
    match n.call {
      case Chdir =>
        var p := Target(v, st, n, a);
        if p.Some? {
          EnterRecords(v, st, n.pid, p.value, a);
        }
      case Fchdir(fd) =>
        if Tracked(v, st, a.proc, n.pid, fd) {
          EnterRecords(v, st, n.pid, st.directories[Key(ProcessKey(a.proc, n.pid), fd)].path, a);
        }
      case _ => OnlyDirectoryCallsMove(v, st, n, a);
    }
  }

  /** A notification changes no cwd entry but that of its own thread group. */
  lemma CwdFrame(v: View, st: State, n: Notification, a: Answers, k: nat)
    requires CursorsInRange(st) && k != ProcessKey(a.proc, n.pid)
    ensures k in Step(v, st, n, a).state.cwds <==> k in st.cwds
    ensures k in st.cwds ==> Step(v, st, n, a).state.cwds[k] == st.cwds[k]
  {
    CwdsAfter(v, st, n, a);
  }

  /** A process with an entry nearer than the caller's thread group keeps its cwd. */
  lemma {:induction false} NearerEntryShields(v: View, st: State, n: Notification, a: Answers, proc: Procfs, pid: nat,
                                              i: nat)
    requires CursorsInRange(st)
    requires Nearest(st.cwds, Ancestors(proc, ProcessKey(proc, pid), MAX_ANCESTORS), i)
    requires forall j :: 0 <= j <= i ==>
                           Ancestors(proc, ProcessKey(proc, pid), MAX_ANCESTORS)[j] != ProcessKey(a.proc, n.pid)
    ensures VirtualCwd(Step(v, st, n, a).state.cwds, proc, pid) == VirtualCwd(st.cwds, proc, pid)
  {
    var chain := Ancestors(proc, ProcessKey(proc, pid), MAX_ANCESTORS);
    var after := Step(v, st, n, a).state.cwds;
    forall j | 0 <= j <= i ensures chain[j] in after <==> chain[j] in st.cwds {
      CwdFrame(v, st, n, a, chain[j]);
    }
    CwdFrame(v, st, n, a, chain[i]);
    assert Nearest(after, chain, i);
    NearestAncestor(st.cwds, proc, ProcessKey(proc, pid), MAX_ANCESTORS);
    NearestAncestor(after, proc, ProcessKey(proc, pid), MAX_ANCESTORS);
  }

  lemma OwnEntryIsBase(v: View, st: State, a: Answers, pid: nat, path: Bytes)
    requires path != [] && ProcessKey(a.proc, pid) in st.cwds && NormalPath(st.cwds[ProcessKey(a.proc, pid)])
    ensures ResolvePath(v, st, a.proc, pid, AT_FDCWD, path) == Ok(Lexical(st.cwds[ProcessKey(a.proc, pid)], path))
  {
    var cwd := st.cwds[ProcessKey(a.proc, pid)];
    assert VirtualCwd(st.cwds, a.proc, pid) == Some(cwd);
    JoinComposes(Print(cwd), path);
    PrintRoundTrip(cwd);
  }

  /** What the process asked for, from its own entry `cwd`. */
  function Requested(v: View, st: State, n: Notification, a: Answers, cwd: Path): Option<Path> {
    match n.call
    case Chdir => if a.path.Ok? && a.path.value != [] then Some(Lexical(cwd, a.path.value)) else None
    case Fchdir(fd) =>
      if Tracked(v, st, a.proc, n.pid, fd)
      then Some(st.directories[Key(ProcessKey(a.proc, n.pid), fd)].path) else None
    case _ => None
  }

  lemma EnterAnswers(v: View, st: State, pid: nat, p: Path, a: Answers)
    ensures var effects := EnterStep(v, st, pid, p, a).effects;
            && effects != [] && effects[|effects| - 1].Terminal?
            && effects[|effects| - 1].reply ==
               if !Projects(v, p) then Continue
               else if a.isDir.Err? then Error(a.isDir.error)
               else if !a.isDir.value then Error(ENOTDIR)
               else if Resolve(v, p) == p then Continue else Value(0)
  {
  }

  /** The kernel is left to enter `p` itself: outside the binds, or where guest and host path coincide. */
  predicate LeftToKernel(v: View, p: Path, a: Answers) {
    !Projects(v, p) || (a.isDir == Ok(true) && Resolve(v, p) == p)
  }

  /** What entering `p` records and is answered, once it was asked for. */
  ghost predicate AnsweredAsAsked(v: View, st: State, n: Notification, a: Answers, asked: Option<Path>)
    requires CursorsInRange(st)
  {
    match asked
    case None => Recorded(v, st, n, a).None? && !Answered(v, st, n, a).Value?
    case Some(p) =>
      && (LeftToKernel(v, p, a) <==> Answered(v, st, n, a) == Continue)
      && (Answered(v, st, n, a).Error? <==> Recorded(v, st, n, a).None?)
      && (Recorded(v, st, n, a).Some? ==> Recorded(v, st, n, a) == asked)
      && !Answered(v, st, n, a).SendFd?
  }

  lemma AskedToEnter(v: View, st: State, n: Notification, a: Answers, p: Path)
    requires CursorsInRange(st) && Step(v, st, n, a) == EnterStep(v, st, n.pid, p, a)
    requires Recorded(v, st, n, a) == if !Projects(v, p) || a.isDir == Ok(true) then Some(p) else None
    ensures AnsweredAsAsked(v, st, n, a, Some(p))
  {
    EnterAnswers(v, st, n.pid, p, a);
  }

  lemma OwnChdir(v: View, st: State, n: Notification, a: Answers)
    requires Invariant(v, st) && ProcessKey(a.proc, n.pid) in st.cwds && n.call.Chdir?
    ensures var asked := Requested(v, st, n, a, st.cwds[ProcessKey(a.proc, n.pid)]);
            && AnsweredAsAsked(v, st, n, a, asked)
            && (asked.None? ==> Answered(v, st, n, a).Error?)
  {
    if a.path.Ok? && a.path.value != [] {
      OwnEntryIsBase(v, st, a, n.pid, a.path.value);
      AskedToEnter(v, st, n, a, Lexical(st.cwds[ProcessKey(a.proc, n.pid)], a.path.value));
    }
  }

  lemma OwnFchdir(v: View, st: State, n: Notification, a: Answers)
    requires CursorsInRange(st) && n.call.Fchdir?
    ensures var asked := Requested(v, st, n, a, []);
            && AnsweredAsAsked(v, st, n, a, asked)
            && (asked.None? ==> Answered(v, st, n, a) == Continue)
  {
    if Tracked(v, st, a.proc, n.pid, n.call.fd) {
      AskedToEnter(v, st, n, a, st.directories[Key(ProcessKey(a.proc, n.pid), n.call.fd)].path);
    } else {
      StaleIsForgotten(v, st, n, a);
    }
  }

  /** The requests of thread group `k` that were not answered with an error, folded from `cwd`. */
  function Asked(v: View, st: State, events: seq<Event>, k: nat, cwd: Path): Path
    requires CursorsInRange(st)
    decreases |events|
  {
    if events == [] then cwd
    else
      var n, a := events[0].notification, events[0].answers;
      var asked := Requested(v, st, n, a, cwd);
      Asked(v, Step(v, st, n, a).state, events[1..], k,
            if ProcessKey(a.proc, n.pid) == k && asked.Some? && !Answered(v, st, n, a).Error? then asked.value else cwd)
  }

  /** Over any run, whatever other processes do, an entry is the lexical fold of its own group's requests. */
  lemma {:induction false} EntryIsHistory(v: View, st: State, events: seq<Event>, k: nat)
    requires Clean(v) && Invariant(v, st) && GoodEvents(events) && k in st.cwds
    ensures k in Run(v, st, events).cwds
    ensures Run(v, st, events).cwds[k] == Asked(v, st, events, k, st.cwds[k])
    decreases |events|
  {
    if events != [] {
      var n, a := events[0].notification, events[0].answers;
      StepKeepsInvariant(v, st, n, a);
      CwdsAfter(v, st, n, a);
      if ProcessKey(a.proc, n.pid) == k {
        match n.call {
          case Chdir => OwnChdir(v, st, n, a);
          case Fchdir(_) => OwnFchdir(v, st, n, a);
          case _ =>
        }
      }
      EntryIsHistory(v, Step(v, st, n, a).state, events[1..], k);
    }
  }

  // ----- Where the process is -----

  /**
    Host directories: the one a process is in, if it still exists, and the kernel's own cwd of
    it, which an emulated chdir leaves behind.
   */
  datatype Place = Place(directory: Option<Path>, kernel: Path)

  function InKernel(p: Path): Place {
    Place(Some(p), p)
  }

  /**
    Where a notification takes the processes that share the caller's cwd. A continued call is
    made by the kernel, with the guest's own pathname and from the kernel's own directory; an
    emulated one enters what its pathname resolves to, or the directory of its descriptor.
   */
  function Move(v: View, st: State, n: Notification, a: Answers, here: Place): Place
    requires CursorsInRange(st)
  {
    match (n.call, Answered(v, st, n, a))
    case (Chdir, Continue) =>
      if a.path.Ok? && a.kernelOk then InKernel(Lexical(a.base, a.path.value)) else here
    case (Chdir, Value(_)) =>
      if Target(v, st, n, a).Some? then here.(directory := Some(Resolve(v, Target(v, st, n, a).value))) else here
    case (Fchdir(_), Continue) => if a.kernelOk then InKernel(a.landed) else here
    case (Fchdir(_), Value(_)) => here.(directory := Some(a.landed))
    case _ => here
  }

  /** A directory after the rename of `a` onto `b`: carried along, replaced, or untouched. */
  function Carried(d: Path, a: Path, b: Path): Option<Path> {
    if a <= d then Some(b + d[|a|..]) else if b <= d then None else Some(d)
  }

  /** A directory after a change of the host tree. */
  function DirectoryAfter(d: Path, c: H.HostChange): Option<Path> {
    match c
    case Renamed(a, b) => if a == b then Some(d) else Carried(d, a, b)
    case At(h, Rmdir) => if h <= d then None else Some(d)
    case _ => Some(d)
  }

  /** Where a change leaves a directory, the changed tree has one. */
  lemma DirectoryIsThere(t: T.Tree, d: Path, c: H.HostChange)
    requires T.Look(t, d) == Some(T.Dir) && H.Applied(t, c).Ok? && DirectoryAfter(d, c).Some?
    ensures T.Look(H.Applied(t, c).value, DirectoryAfter(d, c).value) == Some(T.Dir)
  {
    match c {
      case Unchanged =>
      case At(h, op) => T.HostAt(t, h);
      case Renamed(a, b) =>
        if a != b {
          T.RenameIncomparable(t, a, b);
          T.MoveLook(t, a, b, DirectoryAfter(d, c).value);
          if a <= d {
            assert a + (b + d[|a|..])[|b|..] == d;
          }
        }
    }
  }

  /** A process stays in its directory, wherever that goes; a removed one keeps its last name for the kernel. */
  function Relocated(here: Place, c: H.HostChange): Place {
    var kernel := DirectoryAfter(here.kernel, c);
    Place(if here.directory.Some? then DirectoryAfter(here.directory.value, c) else None,
          if kernel.Some? then kernel.value else here.kernel)
  }

  /** A descriptor whose link is still that of the directory opened for it refers to that directory. */
  predicate HonestDescriptor(v: View, st: State, n: Notification, a: Answers) {
    n.call.Fchdir? && Tracked(v, st, a.proc, n.pid, n.call.fd) ==>
      a.landed == Resolve(v, st.directories[Key(ProcessKey(a.proc, n.pid), n.call.fd)].path)
  }

  /** The kernel is left to enter another directory, which was recorded before it answered, and refuses. */
  predicate KernelRefuses(v: View, st: State, n: Notification, a: Answers, cwd: Path, d: Path) {
    match Requested(v, st, n, a, cwd)
    case Some(p) => LeftToKernel(v, p, a) && !a.kernelOk && p != d
    case None => false
  }

  /** The kernel is left a relative pathname that climbs to where its own directory and the entry differ. */
  predicate Displaced(v: View, n: Notification, a: Answers, cwd: Path) {
    && n.call.Chdir? && a.path.Ok? && a.path.value != [] && a.kernelOk
    && LeftToKernel(v, Lexical(cwd, a.path.value), a)
    && !IsAbsolute(a.path.value)
    && Above(a.base, Climb(a.path.value)) != Above(cwd, Climb(a.path.value))
  }

  /** The kernel performs a fchdir to another directory, on a descriptor the supervisor does not track. */
  predicate UntrackedFchdir(v: View, st: State, n: Notification, a: Answers, d: Path) {
    n.call.Fchdir? && !Tracked(v, st, a.proc, n.pid, n.call.fd) && a.kernelOk && a.landed != d
  }

  /** A rename of the directory or of one above it, a rename onto it, or its removal, by anyone. */
  predicate Uproots(c: H.HostChange, d: Path) {
    match c
    case Renamed(a, b) => a != b && (a <= d || b <= d)
    case At(h, Rmdir) => h <= d
    case _ => false
  }

  /** Another group, which shares the cwd, enters another directory. */
  predicate Drags(v: View, st: State, n: Notification, a: Answers, d: Path)
    requires CursorsInRange(st)
  {
    match (n.call, Answered(v, st, n, a))
    case (Chdir, Continue) => a.path.Ok? && a.kernelOk && Lexical(a.base, a.path.value) != d
    case (Chdir, Value(_)) => Target(v, st, n, a).Some? && Resolve(v, Target(v, st, n, a).value) != d
    case (Fchdir(_), Continue) => a.kernelOk && a.landed != d
    case (Fchdir(_), Value(_)) => a.landed != d
    case _ => false
  }

  predicate Own(e: Event, k: nat) {
    ProcessKey(e.answers.proc, e.notification.pid) == k
  }

  /** The event is one of those after which the entry `cwd` of group `k` no longer names its directory `d`. */
  predicate GoesWrong(v: View, st: State, e: Event, k: nat, cwd: Path, d: Path)
    requires CursorsInRange(st)
  {
    var n, a := e.notification, e.answers;
    || Uproots(H.Changed(v, st, n, a), d)
    || (Own(e, k) && (KernelRefuses(v, st, n, a, cwd, d) || Displaced(v, n, a, cwd) || UntrackedFchdir(v, st, n, a, d)))
    || (!Own(e, k) && k in a.sharers && Drags(v, st, n, a, d))
  }

  /** Where one event, of any group, leaves the processes of thread group `k`. */
  function MoveBy(v: View, st: State, e: Event, k: nat, here: Place): Place
    requires CursorsInRange(st)
  {
    var moved := if Own(e, k) || k in e.answers.sharers then Move(v, st, e.notification, e.answers, here) else here;
    Relocated(moved, H.Changed(v, st, e.notification, e.answers))
  }

  /** The entry of thread group `k` names, through the view, the directory its processes are in. */
  predicate EntryRight(v: View, st: State, k: nat, here: Place) {
    k in st.cwds && here.directory == Some(Resolve(v, st.cwds[k]))
  }

  lemma LeftAlone(v: View, p: Path, a: Answers)
    requires LeftToKernel(v, p, a)
    ensures Resolve(v, p) == p
  {
  }

  /** A change moves or removes a directory exactly when it uproots it. */
  lemma UprootedExactly(d: Path, c: H.HostChange)
    ensures DirectoryAfter(d, c) == Some(d) <==> !Uproots(c, d)
  {
    if c.Renamed? && c.source <= d && c.source != c.target {
      assert d == c.source + d[|c.source|..];
      if c.target + d[|c.source|..] == d {
        SameTail(c.target, c.source, d[|c.source|..]);
      }
    }
  }

  lemma SameTail(a: Path, b: Path, tail: Path)
    requires a + tail == b + tail
    ensures a == b
  {
    assert |a| == |b|;
    assert a == (a + tail)[..|a|] && b == (b + tail)[..|b|];
  }

  lemma ChdirTarget(v: View, st: State, n: Notification, a: Answers)
    requires Invariant(v, st) && ProcessKey(a.proc, n.pid) in st.cwds && n.call.Chdir?
    ensures Target(v, st, n, a) == Requested(v, st, n, a, st.cwds[ProcessKey(a.proc, n.pid)])
  {
    if a.path.Ok? && a.path.value != [] {
      OwnEntryIsBase(v, st, a, n.pid, a.path.value);
    }
  }

  lemma ChdirTracked(v: View, st: State, n: Notification, a: Answers, here: Place)
    requires Invariant(v, st) && n.call.Chdir? && EntryRight(v, st, ProcessKey(a.proc, n.pid), here)
    ensures var k := ProcessKey(a.proc, n.pid);
            EntryRight(v, Step(v, st, n, a).state, k, Move(v, st, n, a, here)) <==>
            !KernelRefuses(v, st, n, a, st.cwds[k], here.directory.value) && !Displaced(v, n, a, st.cwds[k])
  {
    var k := ProcessKey(a.proc, n.pid);
    var cwd := st.cwds[k];
    CwdsAfter(v, st, n, a);
    OwnChdir(v, st, n, a);
    ChdirTarget(v, st, n, a);
    if a.path.Ok? && a.path.value != [] {
      var p := Lexical(cwd, a.path.value);
      if LeftToKernel(v, p, a) {
        LeftAlone(v, p, a);
        LexicalFromBoth(a.base, cwd, a.path.value);
      }
    }
  }

  lemma TrackedMove(v: View, st: State, n: Notification, a: Answers, here: Place)
    requires CursorsInRange(st) && n.call.Fchdir? && Tracked(v, st, a.proc, n.pid, n.call.fd)
    ensures var p := st.directories[Key(ProcessKey(a.proc, n.pid), n.call.fd)].path;
            Move(v, st, n, a, here).directory ==
            if (LeftToKernel(v, p, a) && a.kernelOk) || (!LeftToKernel(v, p, a) && Recorded(v, st, n, a).Some?)
            then Some(a.landed) else here.directory
  {
    OwnFchdir(v, st, n, a);
  }

  lemma FchdirTracked(v: View, st: State, n: Notification, a: Answers, here: Place)
    requires Invariant(v, st) && n.call.Fchdir? && EntryRight(v, st, ProcessKey(a.proc, n.pid), here)
    requires Tracked(v, st, a.proc, n.pid, n.call.fd) && HonestDescriptor(v, st, n, a)
    ensures var k := ProcessKey(a.proc, n.pid);
            EntryRight(v, Step(v, st, n, a).state, k, Move(v, st, n, a, here)) <==>
            !KernelRefuses(v, st, n, a, st.cwds[k], here.directory.value)
  {
    var p := st.directories[Key(ProcessKey(a.proc, n.pid), n.call.fd)].path;
    CwdsAfter(v, st, n, a);
    TrackedMove(v, st, n, a, here);
    if LeftToKernel(v, p, a) {
      LeftAlone(v, p, a);
    }
  }

  lemma FchdirUntracked(v: View, st: State, n: Notification, a: Answers, here: Place)
    requires Invariant(v, st) && n.call.Fchdir? && EntryRight(v, st, ProcessKey(a.proc, n.pid), here)
    requires !Tracked(v, st, a.proc, n.pid, n.call.fd)
    ensures EntryRight(v, Step(v, st, n, a).state, ProcessKey(a.proc, n.pid), Move(v, st, n, a, here)) <==>
            !UntrackedFchdir(v, st, n, a, here.directory.value)
  {
    CwdsAfter(v, st, n, a);
    OwnFchdir(v, st, n, a);
  }

  /** A call that enters no directory moves nobody by itself. */
  lemma OthersStay(v: View, st: State, n: Notification, a: Answers, here: Place)
    requires CursorsInRange(st) && !n.call.Chdir? && !n.call.Fchdir?
    ensures Move(v, st, n, a, here) == here && Step(v, st, n, a).state.cwds == st.cwds
  {
    OnlyDirectoryCallsMove(v, st, n, a);
  }

  /** A call that enters a directory uproots none. */
  lemma EnteringUprootsNothing(v: View, st: State, n: Notification, a: Answers, here: Place, d: Path)
    requires CursorsInRange(st) && (n.call.Chdir? || n.call.Fchdir?)
    ensures !Uproots(H.Changed(v, st, n, a), d)
    ensures Relocated(here, H.Changed(v, st, n, a)) == here
  {
    H.EnteringChangesNothing(v, st, n, a);
  }

  lemma OwnEventTracked(v: View, st: State, e: Event, k: nat, here: Place)
    requires Invariant(v, st) && EntryRight(v, st, k, here) && Own(e, k)
    requires HonestDescriptor(v, st, e.notification, e.answers)
    ensures EntryRight(v, Step(v, st, e.notification, e.answers).state, k, MoveBy(v, st, e, k, here)) <==>
            !GoesWrong(v, st, e, k, st.cwds[k], here.directory.value)
  {
    var n, a := e.notification, e.answers;
    match n.call {
      case Chdir =>
        EnteringUprootsNothing(v, st, n, a, Move(v, st, n, a, here), here.directory.value);
        ChdirTracked(v, st, n, a, here);
      case Fchdir(fd) =>
        EnteringUprootsNothing(v, st, n, a, Move(v, st, n, a, here), here.directory.value);
        if Tracked(v, st, a.proc, n.pid, fd) {
          FchdirTracked(v, st, n, a, here);
        } else {
          FchdirUntracked(v, st, n, a, here);
        }
      case _ =>
        OthersStay(v, st, n, a, here);
        UprootedExactly(here.directory.value, H.Changed(v, st, n, a));
    }
  }

  lemma DraggedExactly(v: View, st: State, n: Notification, a: Answers, here: Place)
    requires CursorsInRange(st) && here.directory.Some?
    ensures Move(v, st, n, a, here).directory == here.directory <==> !Drags(v, st, n, a, here.directory.value)
  {
  }

  lemma OthersEventTracked(v: View, st: State, e: Event, k: nat, here: Place)
    requires Invariant(v, st) && EntryRight(v, st, k, here) && !Own(e, k)
    ensures EntryRight(v, Step(v, st, e.notification, e.answers).state, k, MoveBy(v, st, e, k, here)) <==>
            !GoesWrong(v, st, e, k, st.cwds[k], here.directory.value)
  {
    var n, a := e.notification, e.answers;
    CwdFrame(v, st, n, a, k);
    if n.call.Chdir? || n.call.Fchdir? {
      EnteringUprootsNothing(v, st, n, a, Move(v, st, n, a, here), here.directory.value);
      EnteringUprootsNothing(v, st, n, a, here, here.directory.value);
      DraggedExactly(v, st, n, a, here);
    } else {
      OthersStay(v, st, n, a, here);
      UprootedExactly(here.directory.value, H.Changed(v, st, n, a));
    }
  }

  /**
    From a right entry of thread group `k`, the entry is right after any notification of any group,
    if and only if that did not rename, replace or remove the directory; did not, for the group's own
    chdir or fchdir, record what the kernel then refuses, leave it a pathname that climbs out of
    where its directory and the entry agree, or leave it an untracked descriptor of another
    directory; and did not move a cwd that another group shares.
   */
  lemma CwdTrackedExactly(v: View, st: State, e: Event, k: nat, here: Place)
    requires Invariant(v, st) && EntryRight(v, st, k, here) && HonestDescriptor(v, st, e.notification, e.answers)
    ensures EntryRight(v, Step(v, st, e.notification, e.answers).state, k, MoveBy(v, st, e, k, here)) <==>
            !GoesWrong(v, st, e, k, st.cwds[k], here.directory.value)
  {
    if Own(e, k) {
      OwnEventTracked(v, st, e, k, here);
    } else {
      OthersEventTracked(v, st, e, k, here);
    }
  }

  /** Descriptors are honest, and the kernel starts the group's own relative pathnames from its cwd. */
  predicate HonestEvent(v: View, st: State, e: Event, k: nat, here: Place) {
    && HonestDescriptor(v, st, e.notification, e.answers)
    && (Own(e, k) && DirectoryArgument(e.notification) == AT_FDCWD ==> e.answers.base == here.kernel)
  }

  ghost predicate HonestRun(v: View, st: State, events: seq<Event>, k: nat, here: Place)
    requires CursorsInRange(st)
    decreases |events|
  {
    events != [] ==>
      && HonestEvent(v, st, events[0], k, here)
      && HonestRun(v, Step(v, st, events[0].notification, events[0].answers).state, events[1..], k,
                   MoveBy(v, st, events[0], k, here))
  }

  /** The entry of `k` is right before and after every event. */
  ghost predicate RightThroughout(v: View, st: State, events: seq<Event>, k: nat, here: Place)
    requires CursorsInRange(st)
    decreases |events|
  {
    && EntryRight(v, st, k, here)
    && (events != [] ==>
          RightThroughout(v, Step(v, st, events[0].notification, events[0].answers).state, events[1..], k,
                          MoveBy(v, st, events[0], k, here)))
  }

  /** No event goes wrong for thread group `k`. */
  ghost predicate Faithful(v: View, st: State, events: seq<Event>, k: nat, here: Place)
    requires CursorsInRange(st)
    decreases |events|
  {
    events != [] ==>
      && (k in st.cwds && here.directory.Some? ==>
            !GoesWrong(v, st, events[0], k, st.cwds[k], here.directory.value))
      && Faithful(v, Step(v, st, events[0].notification, events[0].answers).state, events[1..], k,
                  MoveBy(v, st, events[0], k, here))
  }

  /**
    Over a whole run of notifications from any groups, the entry of a thread group names the
    directory its processes are in at every point, if and only if no event goes wrong for it.
   */
  lemma {:induction false} CwdRightExactly(v: View, st: State, events: seq<Event>, k: nat, here: Place)
    requires Clean(v) && Invariant(v, st) && GoodEvents(events) && HonestRun(v, st, events, k, here)
    requires EntryRight(v, st, k, here)
    ensures RightThroughout(v, st, events, k, here) <==> Faithful(v, st, events, k, here)
    decreases |events|
  {
    if events != [] {
      var e := events[0];
      var next, there := Step(v, st, e.notification, e.answers).state, MoveBy(v, st, e, k, here);
      StepKeepsInvariant(v, st, e.notification, e.answers);
      CwdTrackedExactly(v, st, e, k, here);
      if EntryRight(v, next, k, there) {
        CwdRightExactly(v, next, events[1..], k, there);
      }
    }
  }

  /** A successful chdir records the pathname resolved from the cwd the process had or inherited. */
  lemma FirstChdir(v: View, st: State, n: Notification, a: Answers, p: Path)
    requires CursorsInRange(st) && n.call.Chdir?
    requires Target(v, st, n, a) == Some(p) && (!Projects(v, p) || a.isDir == Ok(true))
    ensures Step(v, st, n, a).state == st.(cwds := st.cwds[ProcessKey(a.proc, n.pid) := p])
    ensures Step(v, st, n, a).effects[|Step(v, st, n, a).effects| - 1] ==
            Terminal(if Projects(v, p) && Resolve(v, p) != p then Value(0) else Continue)
  {
  }

  // ----- What a descendant inherits -----

  /** Looking for the cwd of `current` reaches thread group `g` before any nearer entry. */
  predicate Meets(cwds: map<nat, Path>, proc: Procfs, current: nat, n: nat, g: nat)
    decreases n
  {
    && n > 0
    && (current == g ||
        (current !in cwds && current in proc.parents && proc.parents[current] != 0 && proc.parents[current] != current
         && Meets(cwds, proc, ProcessKey(proc, proc.parents[current]), n - 1, g)))
  }

  lemma {:induction false} CwdAfterRecord(cwds: map<nat, Path>, proc: Procfs, current: nat, n: nat, g: nat, p: Path)
    ensures CwdFrom(cwds[g := p], proc, current, n) ==
            if Meets(cwds, proc, current, n, g) then Some(p) else CwdFrom(cwds, proc, current, n)
    decreases n
  {
    if n > 0 && current != g && current !in cwds && current in proc.parents
       && proc.parents[current] != 0 && proc.parents[current] != current {
      CwdAfterRecord(cwds, proc, ProcessKey(proc, proc.parents[current]), n - 1, g, p);
    }
  }

  /** The notification records, for a group the process inherits from, another path than it has. */
  predicate Disturbs(v: View, st: State, e: Event, proc: Procfs, pid: nat) {
    var recorded := Recorded(v, st, e.notification, e.answers);
    && recorded.Some? && recorded != VirtualCwd(st.cwds, proc, pid)
    && Meets(st.cwds, proc, ProcessKey(proc, pid), MAX_ANCESTORS, ProcessKey(e.answers.proc, e.notification.pid))
  }

  lemma InheritedStep(v: View, st: State, e: Event, proc: Procfs, pid: nat)
    requires CursorsInRange(st)
    ensures VirtualCwd(Step(v, st, e.notification, e.answers).state.cwds, proc, pid) == VirtualCwd(st.cwds, proc, pid)
            <==> !Disturbs(v, st, e, proc, pid)
  {
    CwdsAfter(v, st, e.notification, e.answers);
    var recorded := Recorded(v, st, e.notification, e.answers);
    if recorded.Some? {
      CwdAfterRecord(st.cwds, proc, ProcessKey(proc, pid), MAX_ANCESTORS,
                     ProcessKey(e.answers.proc, e.notification.pid), recorded.value);
    }
  }

  ghost predicate KeepsCwd(v: View, st: State, events: seq<Event>, proc: Procfs, pid: nat, cwd: Option<Path>)
    requires CursorsInRange(st)
    decreases |events|
  {
    && VirtualCwd(st.cwds, proc, pid) == cwd
    && (events != [] ==>
          KeepsCwd(v, Step(v, st, events[0].notification, events[0].answers).state, events[1..], proc, pid, cwd))
  }

  ghost predicate Undisturbed(v: View, st: State, events: seq<Event>, proc: Procfs, pid: nat)
    requires CursorsInRange(st)
    decreases |events|
  {
    events != [] ==>
      && !Disturbs(v, st, events[0], proc, pid)
      && Undisturbed(v, Step(v, st, events[0].notification, events[0].answers).state, events[1..], proc, pid)
  }

  /**
    A process keeps the cwd it had at the start of a run (that of its fork, say) throughout it if
    and only if nobody it inherits from, with no nearer entry in between, records another path.
   */
  lemma {:induction false} InheritedCwdExactly(v: View, st: State, events: seq<Event>, proc: Procfs, pid: nat)
    requires CursorsInRange(st)
    ensures KeepsCwd(v, st, events, proc, pid, VirtualCwd(st.cwds, proc, pid)) <==>
            Undisturbed(v, st, events, proc, pid)
    decreases |events|
  {
    if events != [] {
      InheritedStep(v, st, events[0], proc, pid);
      var next := Step(v, st, events[0].notification, events[0].answers).state;
      if VirtualCwd(next.cwds, proc, pid) == VirtualCwd(st.cwds, proc, pid) {
        InheritedCwdExactly(v, next, events[1..], proc, pid);
      }
    }
  }

  // ----- What the kernel resolves -----

  lemma ResolvedFromBase(v: View, st: State, a: Answers, pid: nat, dirfd: int, path: Bytes, p: Path, base: Path)
    requires ResolvePath(v, st, a.proc, pid, dirfd, path) == Ok(p)
    requires !IsAbsolute(path) ==> Base(v, st, a.proc, pid, dirfd) == Ok(base) && NormalPath(base)
    ensures p == Lexical(base, path)
  {
    if !IsAbsolute(path) {
      JoinComposes(Print(base), path);
      PrintRoundTrip(base);
    }
  }

  /**
    A call continued with the guest's pathname reaches, from the directory the kernel starts
    from, the file the view resolves it to, if and only if the pathname is absolute or
    that directory and the supervisor's base agree above the levels it climbs.
   */
  lemma ContinuedMeansResolved(v: View, st: State, n: Notification, a: Answers, p: Path, base: Path)
    requires CursorsInRange(st) && Target(v, st, n, a) == Some(p) && Terminal(Continue) in Step(v, st, n, a).effects
    requires !Rewritten(v, p, Step(v, st, n, a).effects)
    requires !IsAbsolute(a.path.value) ==>
               Base(v, st, a.proc, n.pid, DirectoryArgument(n)) == Ok(base) && NormalPath(base)
    ensures Lexical(a.base, a.path.value) == Resolve(v, p) <==>
            || IsAbsolute(a.path.value)
            || Above(a.base, Climb(a.path.value)) == Above(base, Climb(a.path.value))
  {
    if Projects(v, p) {
      ProjectedNeverFallsThrough(v, st, n, a, p);
    }
    ResolvedFromBase(v, st, a, n.pid, DirectoryArgument(n), a.path.value, p, base);
    LexicalFromBoth(a.base, base, a.path.value);
  }

  /** Likewise for the two ends of a continued rename, each from its own directory. */
  lemma ContinuedRenameMeansResolved(v: View, st: State, n: Notification, a: Answers, p: Path, q: Path,
                                     base: Path, newBase: Path)
    requires CursorsInRange(st) && n.call.Rename? && n.call.flags == 0 && a.path.Ok? && a.other.Ok?
    requires ReadAndResolve(v, st, a.proc, n.pid, n.call.dirfd, a.path) == Ok(p)
    requires ReadAndResolve(v, st, a.proc, n.pid, n.call.newDirfd, a.other) == Ok(q)
    requires Terminal(Continue) in Step(v, st, n, a).effects
    requires !IsAbsolute(a.path.value) ==> Base(v, st, a.proc, n.pid, n.call.dirfd) == Ok(base) && NormalPath(base)
    requires !IsAbsolute(a.other.value) ==>
               Base(v, st, a.proc, n.pid, n.call.newDirfd) == Ok(newBase) && NormalPath(newBase)
    ensures && Lexical(a.base, a.path.value) == Resolve(v, p)
            && Lexical(a.otherBase, a.other.value) == Resolve(v, q) <==>
            && (|| IsAbsolute(a.path.value)
                || Above(a.base, Climb(a.path.value)) == Above(base, Climb(a.path.value)))
            && (|| IsAbsolute(a.other.value)
                || Above(a.otherBase, Climb(a.other.value)) == Above(newBase, Climb(a.other.value)))
  {
    RenameIsRouted(v, st, n, a, p, q);
    ResolvedFromBase(v, st, a, n.pid, n.call.dirfd, a.path.value, p, base);
    ResolvedFromBase(v, st, a, n.pid, n.call.newDirfd, a.other.value, q, newBase);
    LexicalFromBoth(a.base, base, a.path.value);
    LexicalFromBoth(a.otherBase, newBase, a.other.value);
  }

  // ----- Reports -----

  /** `getcwd` fails for a short buffer, or as its write does, and otherwise writes the printed cwd and its NUL. */
  lemma GetcwdReports(v: View, st: State, n: Notification, a: Answers, cwd: Path)
    requires CursorsInRange(st) && n.call.Getcwd?
    requires VirtualCwd(st.cwds, a.proc, n.pid) == Some(cwd)
    ensures Step(v, st, n, a).effects ==
            if |Print(cwd)| + 1 > n.call.size then [Terminal(Error(ERANGE))]
            else if a.write.Some? then [Terminal(Error(a.write.value))]
            else [WriteGuest(Print(cwd) + [0]), Terminal(Value(|Print(cwd)| + 1))]
  {
  }

  lemma ReadlinkReports(v: View, st: State, n: Notification, a: Answers, cwd: Path)
    requires CursorsInRange(st) && n.call.Readlink?
    requires VirtualCwd(st.cwds, a.proc, n.pid) == Some(cwd)
    requires Target(v, st, n, a).Some?
    requires IsOwnProcCwd(Target(v, st, n, a).value, n.pid, ProcessKey(a.proc, n.pid))
    ensures var bytes := Shortest(n.call.size, Print(cwd));
            Step(v, st, n, a).effects ==
            if a.write.Some? then [Terminal(Error(a.write.value))] else [WriteGuest(bytes), Terminal(Value(|bytes|))]
  {
    assert Step(v, st, n, a).effects == ReadlinkEffects(v, st, n.pid, n.call.dirfd, n.call.size, a);
  }

  /**
    `getcwd` and the own `/proc` link report the same bytes, up to the size of the link buffer; reading them
    back is the cwd.
   */
  lemma CwdReportsAgree(v: View, st: State, getcwd: Notification, readlink: Notification, a: Answers, cwd: Path)
    requires CursorsInRange(st) && getcwd.call.Getcwd? && readlink.call.Readlink?
    requires getcwd.pid == readlink.pid && a.write.None?
    requires VirtualCwd(st.cwds, a.proc, getcwd.pid) == Some(cwd) && NormalPath(cwd)
    requires Target(v, st, readlink, a).Some?
    requires IsOwnProcCwd(Target(v, st, readlink, a).value, readlink.pid, ProcessKey(a.proc, readlink.pid))
    requires getcwd.call.size > |Print(cwd)| && readlink.call.size >= |Print(cwd)|
    ensures exists s :: && Step(v, st, getcwd, a).effects == [WriteGuest(s + [0]), Terminal(Value(|s| + 1))]
                        && Step(v, st, readlink, a).effects == [WriteGuest(s), Terminal(Value(|s|))]
                        && Normalize(s) == cwd
  {
    GetcwdReports(v, st, getcwd, a, cwd);
    ReadlinkReports(v, st, readlink, a, cwd);
    PrintRoundTrip(cwd);
    assert Shortest(readlink.call.size, Print(cwd)) == Print(cwd);
  }
}
