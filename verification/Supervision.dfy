/**
  What the supervisor guarantees over every run: the state invariant, one reply to every
  notification, and no guest pathname handed to the kernel for a projected path.
 */
module Supervision {
  import opened Errno
  import opened Wrappers
  import opened Paths
  import opened Bind
  import opened Getdents
  import opened Remote
  import opened Dispatch

  datatype Event = Event(notification: Notification, answers: Answers)

  function Run(v: View, st: State, events: seq<Event>): (r: State)
    requires CursorsInRange(st)
    ensures CursorsInRange(r)
    decreases |events|
  {
    if events == [] then st else Run(v, Step(v, st, events[0].notification, events[0].answers).state, events[1..])
  }

  /** Everything the supervisor does over a run, in order. */
  function RunEffects(v: View, st: State, events: seq<Event>): seq<Effect>
    requires CursorsInRange(st)
    decreases |events|
  {
    if events == [] then []
    else
      var o := Step(v, st, events[0].notification, events[0].answers);
      o.effects + RunEffects(v, o.state, events[1..])
  }

  lemma {:induction false} RunSnoc(v: View, st: State, events: seq<Event>, e: Event)
    requires CursorsInRange(st)
    ensures Run(v, st, events + [e]) == Step(v, Run(v, st, events), e.notification, e.answers).state
    decreases |events|
  {
    if events == [] {
      assert (events + [e])[1..] == [];
    } else {
      assert (events + [e])[0] == events[0] && (events + [e])[1..] == events[1..] + [e];
      RunSnoc(v, Step(v, st, events[0].notification, events[0].answers).state, events[1..], e);
    }
  }

  lemma {:induction false} RunEffectsSnoc(v: View, st: State, events: seq<Event>, e: Event)
    requires CursorsInRange(st)
    ensures RunEffects(v, st, events + [e]) ==
            RunEffects(v, st, events) + Step(v, Run(v, st, events), e.notification, e.answers).effects
    decreases |events|
  {
    if events == [] {
      assert (events + [e])[1..] == [];
    } else {
      assert (events + [e])[0] == events[0] && (events + [e])[1..] == events[1..] + [e];
      RunEffectsSnoc(v, Step(v, st, events[0].notification, events[0].answers).state, events[1..], e);
    }
  }

  /** The notification loop: the object in place follows `Run` and does exactly its effects. */
  method Supervise(v: View, events: seq<Event>) returns (s: Supervisor)
    ensures s.view == v && s.Abstract() == Run(v, State(map[], map[]), events)
    ensures s.log == RunEffects(v, State(map[], map[]), events)
  {
    s := new Supervisor(v);
    for i := 0 to |events|
      invariant fresh(s) && s.view == v
      invariant s.Abstract() == Run(v, State(map[], map[]), events[..i])
      invariant s.log == RunEffects(v, State(map[], map[]), events[..i])
    {
      RunSnoc(v, State(map[], map[]), events[..i], events[i]);
      RunEffectsSnoc(v, State(map[], map[]), events[..i], events[i]);
      assert events[..i + 1] == events[..i] + [events[i]];
      s.Handle(events[i].notification, events[i].answers);
    }
    assert events[..|events|] == events;
  }

  // ----- The run invariant -----

  ghost predicate GoodDirectory(v: View, d: OpenDirectory) {
    NormalPath(d.path) && Projects(v, d.path) && d.cursor <= |d.entries| && GoodEntries(d.entries)
  }

  ghost predicate Invariant(v: View, st: State) {
    && (forall k :: k in st.cwds ==> NormalPath(st.cwds[k]))
    && (forall k :: k in st.directories ==> GoodDirectory(v, st.directories[k]))
  }

  /** Pathnames and links carry no NUL, and a listing is one Linux can return. */
  ghost predicate GoodAnswers(a: Answers) {
    && (a.path.Ok? ==> NulFree(a.path.value))
    && (a.other.Ok? ==> NulFree(a.other.value))
    && (forall k :: k in a.proc.cwdLinks ==> NulFree(a.proc.cwdLinks[k]))
    && (forall k :: k in a.proc.fdLinks ==> NulFree(a.proc.fdLinks[k]))
    && (a.listing.Ok? ==> GoodEntries(a.listing.value))
  }

  lemma {:induction false} PrintNulFree(p: Path)
    requires NormalPath(p)
    ensures NulFree(PrintNames(p)) && NulFree(Print(p))
    decreases |p|
  {
    if p != [] {
      PrintNulFree(p[1..]);
    }
  }

  lemma ResolveNormal(v: View, p: Path)
    requires Clean(v) && NormalPath(p)
    ensures NormalPath(Resolve(v, p)) && NormalPath(VirtualForHost(v, p))
  {
  }

  lemma LinkNormal(v: View, link: Bytes)
    requires Clean(v) && NulFree(link)
    ensures NormalPath(GuestOfLink(v, link))
  {
    FoldIsNormal([], link);
    ResolveNormal(v, Normalize(link));
  }

  lemma {:induction false} CwdNormal(cwds: map<nat, Path>, proc: Procfs, current: nat, n: nat)
    requires forall k :: k in cwds ==> NormalPath(cwds[k])
    ensures CwdFrom(cwds, proc, current, n).Some? ==> NormalPath(CwdFrom(cwds, proc, current, n).value)
    decreases n
  {
    if n > 0 && current !in cwds && current in proc.parents {
      CwdNormal(cwds, proc, ProcessKey(proc, proc.parents[current]), n - 1);
    }
  }

  lemma BaseNormal(v: View, st: State, proc: Procfs, pid: nat, dirfd: int)
    requires Clean(v) && Invariant(v, st)
    requires forall k :: k in proc.cwdLinks ==> NulFree(proc.cwdLinks[k])
    requires forall k :: k in proc.fdLinks ==> NulFree(proc.fdLinks[k])
    ensures Base(v, st, proc, pid, dirfd).Ok? ==> NormalPath(Base(v, st, proc, pid, dirfd).value)
  {
    if dirfd == AT_FDCWD {
      CwdNormal(st.cwds, proc, ProcessKey(proc, pid), MAX_ANCESTORS);
      LinkNormal(v, if pid in proc.cwdLinks then proc.cwdLinks[pid] else [SLASH]);
    } else if Tracked(v, st, proc, pid, dirfd) {
      assert GoodDirectory(v, st.directories[Key(ProcessKey(proc, pid), dirfd)]);
    } else if Key(pid, dirfd) in proc.fdLinks {
      LinkNormal(v, proc.fdLinks[Key(pid, dirfd)]);
    }
  }

  lemma ResolvedNormal(v: View, st: State, a: Answers, pid: nat, dirfd: int, read: Result<Bytes, int>)
    requires Clean(v) && Invariant(v, st) && GoodAnswers(a)
    requires read.Ok? ==> NulFree(read.value)
    ensures var r := ReadAndResolve(v, st, a.proc, pid, dirfd, read);
            r.Ok? ==> NormalPath(r.value) && NormalPath(Resolve(v, r.value))
  {
    var r := ReadAndResolve(v, st, a.proc, pid, dirfd, read);
    if r.Ok? {
      if IsAbsolute(read.value) {
        FoldIsNormal([], read.value);
      } else {
        BaseNormal(v, st, a.proc, pid, dirfd);
        var base := Base(v, st, a.proc, pid, dirfd).value;
        PrintNulFree(base);
        FoldIsNormal([], Join(Print(base), read.value));
      }
      ResolveNormal(v, r.value);
    }
  }

  lemma NormalHasNoNul(p: Path)
    requires NormalPath(p)
    ensures !HasNul(p)
  {
  }

  lemma EnterKeepsInvariant(v: View, st: State, pid: nat, p: Path, a: Answers)
    requires Invariant(v, st) && NormalPath(p)
    ensures Invariant(v, EnterStep(v, st, pid, p, a).state)
    ensures Panic !in EnterStep(v, st, pid, p, a).effects
  {
  }

  lemma InsertKeepsInvariant(v: View, st: State, key: Key, d: OpenDirectory)
    requires Invariant(v, st) && GoodDirectory(v, d)
    ensures Invariant(v, st.(directories := st.directories[key := d]))
  {
  }

  lemma OpenInserts(v: View, st: State, pid: nat, dirfd: int, structured: bool, directory: bool, a: Answers, p: Path)
    requires ReadAndResolve(v, st, a.proc, pid, dirfd, a.path) == Ok(p) && a.inject.Ok? && a.listing.Ok?
    ensures var o := OpenStep(v, st, pid, dirfd, structured, directory, a);
            || o.state == st
            || (Projects(v, p)
                && o.state == st.(directories := st.directories[Key(ProcessKey(a.proc, pid), a.inject.value) :=
                                                   OpenDirectory(p, a.listing.value, 0)]))
  {
  }

  lemma OpenKeepsInvariant(v: View, st: State, n: Notification, a: Answers)
    requires Clean(v) && Invariant(v, st) && GoodAnswers(a) && n.call.Open?
    ensures Invariant(v, OpenStep(v, st, n.pid, n.call.dirfd, n.call.structured, n.call.directory, a).state)
  {
    ResolvedNormal(v, st, a, n.pid, n.call.dirfd, a.path);
    var r := ReadAndResolve(v, st, a.proc, n.pid, n.call.dirfd, a.path);
    if r.Ok? && a.inject.Ok? && a.listing.Ok? {
      OpenInserts(v, st, n.pid, n.call.dirfd, n.call.structured, n.call.directory, a, r.value);
      if Projects(v, r.value) {
        InsertKeepsInvariant(v, st, Key(ProcessKey(a.proc, n.pid), a.inject.value),
                             OpenDirectory(r.value, a.listing.value, 0));
      }
    }
  }

  lemma OpenDoesNotPanic(v: View, st: State, pid: nat, dirfd: int, structured: bool, directory: bool, a: Answers)
    ensures Panic !in OpenStep(v, st, pid, dirfd, structured, directory, a).effects
  {
    var effects := OpenStep(v, st, pid, dirfd, structured, directory, a).effects;
    if |effects| == 2 {
      assert effects == [effects[0], effects[1]] && effects[0].HostCall? && effects[1].Terminal?;
    } else {
      assert effects == [effects[0]] && effects[0].Terminal?;
    }
  }

  lemma PageKeepsDirectory(v: View, d: OpenDirectory, capacity: nat, write: Option<int>)
    requires GoodDirectory(v, d)
    ensures GoodDirectory(v, Page(d, capacity, write).0)
  {
  }

  lemma ListKeepsInvariant(v: View, st: State, pid: nat, fd: int, capacity: nat, a: Answers)
    requires Invariant(v, st)
    ensures Invariant(v, ListStep(v, st, pid, fd, capacity, a).state)
  {
    var key := Key(ProcessKey(a.proc, pid), fd);
    if Tracked(v, st, a.proc, pid, fd) {
      PageKeepsDirectory(v, st.directories[key], capacity, a.write);
      InsertKeepsInvariant(v, st, key, Page(st.directories[key], capacity, a.write).0);
    }
  }

  lemma ListDoesNotPanic(v: View, st: State, pid: nat, fd: int, capacity: nat, a: Answers)
    requires CursorsInRange(st)
    ensures Panic !in ListStep(v, st, pid, fd, capacity, a).effects
  {
  }

  lemma OwnChdirKeepsInvariant(v: View, st: State, pid: nat, a: Answers)
    requires Clean(v) && Invariant(v, st) && GoodAnswers(a)
    ensures Invariant(v, ChdirStep(v, st, pid, a).state)
    ensures Panic !in ChdirStep(v, st, pid, a).effects
  {
    ResolvedNormal(v, st, a, pid, AT_FDCWD, a.path);
    var r := ReadAndResolve(v, st, a.proc, pid, AT_FDCWD, a.path);
    if r.Ok? {
      EnterKeepsInvariant(v, st, pid, r.value, a);
      assert ChdirStep(v, st, pid, a) == EnterStep(v, st, pid, r.value, a);
    } else {
      assert ChdirStep(v, st, pid, a) == Outcome(st, [Terminal(Error(r.error))]);
    }
  }

  lemma StepIsChdir(v: View, st: State, n: Notification, a: Answers)
    requires CursorsInRange(st)
    ensures n.call.Chdir? ==> Step(v, st, n, a) == ChdirStep(v, st, n.pid, a)
    ensures n.call.Fchdir? ==> Step(v, st, n, a) == FchdirStep(v, st, n.pid, n.call.fd, a)
  {
  }

  lemma ChdirKeepsInvariant(v: View, st: State, n: Notification, a: Answers)
    requires Clean(v) && Invariant(v, st) && GoodAnswers(a) && (n.call.Chdir? || n.call.Fchdir?)
    ensures Invariant(v, Step(v, st, n, a).state)
    ensures Panic !in Step(v, st, n, a).effects
  {
    StepIsChdir(v, st, n, a);
    if n.call.Chdir? {
      OwnChdirKeepsInvariant(v, st, n.pid, a);
    } else {
      OwnFchdirKeepsInvariant(v, st, n.pid, n.call.fd, a);
    }
  }

  lemma OwnFchdirKeepsInvariant(v: View, st: State, pid: nat, fd: int, a: Answers)
    requires Invariant(v, st)
    ensures Invariant(v, FchdirStep(v, st, pid, fd, a).state)
    ensures Panic !in FchdirStep(v, st, pid, fd, a).effects
  {
    var key := Key(ProcessKey(a.proc, pid), fd);
    if Tracked(v, st, a.proc, pid, fd) {
      assert GoodDirectory(v, st.directories[key]);
      EnterKeepsInvariant(v, st, pid, st.directories[key].path, a);
      assert FchdirStep(v, st, pid, fd, a) == EnterStep(v, st, pid, st.directories[key].path, a);
    }
  }

  lemma PathCallDoesNotPanic(v: View, st: State, n: Notification, a: Answers)
    requires Clean(v) && Invariant(v, st) && GoodAnswers(a) && n.call.OnPath?
    ensures Panic !in Step(v, st, n, a).effects
  {
    ResolvedNormal(v, st, a, n.pid, n.call.dirfd, a.path);
    var r := ReadAndResolve(v, st, a.proc, n.pid, n.call.dirfd, a.path);
    if r.Ok? {
      NormalHasNoNul(Resolve(v, r.value));
    }
  }

  lemma ExecDoesNotPanic(v: View, st: State, pid: nat, dirfd: int, nofollow: bool, a: Answers)
    ensures Panic !in ExecEffects(v, st, pid, dirfd, nofollow, a)
  {
  }

  lemma RenameDoesNotPanic(v: View, st: State, pid: nat, dirfd: int, newDirfd: int, flags: nat, a: Answers)
    ensures Panic !in RenameEffects(v, st, pid, dirfd, newDirfd, flags, a)
  {
  }

  lemma ReadlinkDoesNotPanic(v: View, st: State, pid: nat, dirfd: int, size: nat, a: Answers)
    ensures Panic !in ReadlinkEffects(v, st, pid, dirfd, size, a)
  {
  }

  lemma OthersKeepState(v: View, st: State, n: Notification, a: Answers)
    requires CursorsInRange(st)
    requires !n.call.Open? && !n.call.ListDirectory? && !n.call.Chdir? && !n.call.Fchdir?
    ensures Step(v, st, n, a).state == st
  {
  }

  lemma OpenKeepsState(v: View, st: State, n: Notification, a: Answers)
    requires Clean(v) && Invariant(v, st) && GoodAnswers(a) && n.call.Open?
    ensures Invariant(v, Step(v, st, n, a).state)
  {
    OpenKeepsInvariant(v, st, n, a);
    assert Step(v, st, n, a) == OpenStep(v, st, n.pid, n.call.dirfd, n.call.structured, n.call.directory, a);
  }

  lemma StepIsList(v: View, st: State, n: Notification, a: Answers)
    requires CursorsInRange(st) && n.call.ListDirectory?
    ensures Step(v, st, n, a) == ListStep(v, st, n.pid, n.call.fd, n.call.capacity, a)
  {
  }

  lemma ListKeepsState(v: View, st: State, n: Notification, a: Answers)
    requires Invariant(v, st) && n.call.ListDirectory?
    ensures Invariant(v, Step(v, st, n, a).state)
  {
    StepIsList(v, st, n, a);
    ListKeepsInvariant(v, st, n.pid, n.call.fd, n.call.capacity, a);
  }

  lemma StepKeepsState(v: View, st: State, n: Notification, a: Answers)
    requires Clean(v) && Invariant(v, st) && GoodAnswers(a)
    ensures Invariant(v, Step(v, st, n, a).state)
  {
    if n.call.Open? {
      OpenKeepsState(v, st, n, a);
    } else if n.call.ListDirectory? {
      ListKeepsState(v, st, n, a);
    } else if n.call.Chdir? || n.call.Fchdir? {
      ChdirKeepsInvariant(v, st, n, a);
    } else {
      OthersKeepState(v, st, n, a);
    }
  }

  lemma PathStepDoesNotPanic(v: View, st: State, n: Notification, a: Answers)
    requires Clean(v) && Invariant(v, st) && GoodAnswers(a) && NamesAPath(n.call)
    ensures Panic !in Step(v, st, n, a).effects
  {
    match n.call {
      case Open(dirfd, structured, directory, _) =>
        OpenDoesNotPanic(v, st, n.pid, dirfd, structured, directory, a);
      case OnPath(_, _) => PathCallDoesNotPanic(v, st, n, a);
      case Exec(dirfd, nofollow) => ExecDoesNotPanic(v, st, n.pid, dirfd, nofollow, a);
      case Rename(dirfd, newDirfd, flags) => RenameDoesNotPanic(v, st, n.pid, dirfd, newDirfd, flags, a);
      case Readlink(dirfd, size) => ReadlinkDoesNotPanic(v, st, n.pid, dirfd, size, a);
      case _ =>
    }
  }

  lemma OtherStepDoesNotPanic(v: View, st: State, n: Notification, a: Answers)
    requires Clean(v) && Invariant(v, st) && GoodAnswers(a) && !NamesAPath(n.call)
    ensures Panic !in Step(v, st, n, a).effects
  {
    match n.call {
      case ListDirectory(fd, capacity) => ListDoesNotPanic(v, st, n.pid, fd, capacity, a);
      case Chdir => ChdirKeepsInvariant(v, st, n, a);
      case Fchdir(_) => ChdirKeepsInvariant(v, st, n, a);
      case _ =>
    }
  }

  /** Every notification keeps the invariant, and the unwrap on a NUL-free path never fails. */
  lemma StepKeepsInvariant(v: View, st: State, n: Notification, a: Answers)
    requires Clean(v) && Invariant(v, st) && GoodAnswers(a)
    ensures Invariant(v, Step(v, st, n, a).state)
    ensures Panic !in Step(v, st, n, a).effects
  {
    StepKeepsState(v, st, n, a);
    if NamesAPath(n.call) {
      PathStepDoesNotPanic(v, st, n, a);
    } else {
      OtherStepDoesNotPanic(v, st, n, a);
    }
  }

  ghost predicate GoodEvents(events: seq<Event>) {
    forall i :: 0 <= i < |events| ==> GoodAnswers(events[i].answers)
  }

  /**
    After any notifications from any processes: recorded paths are absolute, normalised and
    NUL-free, directories are projected and cursors are in range.
   */
  lemma {:induction false} RunKeepsInvariant(v: View, st: State, events: seq<Event>, k: nat)
    requires Clean(v) && Invariant(v, st) && GoodEvents(events) && k <= |events|
    ensures Invariant(v, Run(v, st, events[..k]))
    decreases k
  {
    if k > 0 {
      RunKeepsInvariant(v, st, events, k - 1);
      assert events[..k] == events[..k - 1] + [events[k - 1]];
      RunSnoc(v, st, events[..k - 1], events[k - 1]);
      StepKeepsInvariant(v, Run(v, st, events[..k - 1]), events[k - 1].notification, events[k - 1].answers);
    } else {
      assert events[..0] == [];
    }
  }

  /** No handler panics at any point of any run: the unwrap and the expects never fail. */
  lemma {:induction false} RunNeverPanics(v: View, st: State, events: seq<Event>, k: nat)
    requires Clean(v) && Invariant(v, st) && GoodEvents(events) && k < |events|
    ensures Panic !in Step(v, Run(v, st, events[..k]), events[k].notification, events[k].answers).effects
  {
    RunKeepsInvariant(v, st, events, k);
    StepKeepsInvariant(v, Run(v, st, events[..k]), events[k].notification, events[k].answers);
  }

  // ----- Replies -----

  function Replies(effects: seq<Effect>): nat {
    if effects == [] then 0 else (if effects[0].Terminal? then 1 else 0) + Replies(effects[1..])
  }

  lemma {:induction false} RepliesAppend(a: seq<Effect>, b: seq<Effect>)
    ensures Replies(a + b) == Replies(a) + Replies(b)
  {
    if a == [] {
      assert a + b == b;
    } else {
      assert (a + b)[0] == a[0] && (a + b)[1..] == a[1..] + b;
      RepliesAppend(a[1..], b);
    }
  }

  ghost predicate OnlyLastReplies(effects: seq<Effect>) {
    && effects != [] && effects[|effects| - 1].Terminal?
    && forall i :: 0 <= i < |effects| - 1 ==> !effects[i].Terminal?
  }

  lemma {:induction false} LastRepliesOnce(effects: seq<Effect>)
    requires OnlyLastReplies(effects)
    ensures Replies(effects) == 1
  {
    if |effects| > 1 {
      LastRepliesOnce(effects[1..]);
    }
  }

  lemma PathCallReplies(v: View, st: State, pid: nat, kind: PathCall, dirfd: int, a: Answers)
    requires Panic !in OnPathEffects(v, st, pid, kind, dirfd, a)
    ensures OnlyLastReplies(OnPathEffects(v, st, pid, kind, dirfd, a))
  {
    var es := OnPathEffects(v, st, pid, kind, dirfd, a);
    assert es[0] == Panic ==> Panic in es;
  }

  lemma InjectReplies(target: Path, a: Answers)
    ensures OnlyLastReplies(InjectEffects(target, a))
  {
  }

  lemma ExecReplies(v: View, st: State, pid: nat, dirfd: int, nofollow: bool, a: Answers)
    ensures OnlyLastReplies(ExecEffects(v, st, pid, dirfd, nofollow, a))
  {
    var r := ReadAndResolve(v, st, a.proc, pid, dirfd, a.path);
    if r.Ok? {
      InjectReplies(Resolve(v, r.value), a);
    }
  }

  lemma OpenReplies(v: View, st: State, pid: nat, dirfd: int, structured: bool, directory: bool, a: Answers)
    ensures OnlyLastReplies(OpenStep(v, st, pid, dirfd, structured, directory, a).effects)
  {
  }

  lemma RenameReplies(v: View, st: State, pid: nat, dirfd: int, newDirfd: int, flags: nat, a: Answers)
    ensures OnlyLastReplies(RenameEffects(v, st, pid, dirfd, newDirfd, flags, a))
  {
  }

  lemma HostCallThenReplies(p: Path, effects: seq<Effect>)
    requires OnlyLastReplies(effects)
    ensures OnlyLastReplies([HostCall(p)] + effects)
  {
  }

  lemma ReadlinkReplies(v: View, st: State, pid: nat, dirfd: int, size: nat, a: Answers)
    ensures OnlyLastReplies(ReadlinkEffects(v, st, pid, dirfd, size, a))
  {
    var r := ReadAndResolve(v, st, a.proc, pid, dirfd, a.path);
    if r.Ok? && !IsOwnProcCwd(r.value, pid, ProcessKey(a.proc, pid)) && Projects(v, r.value) {
      var reply := match a.link
        case Err(errno) => Fail(errno)
        case Ok(link) => Written(Shortest(size, link), a.write, |Shortest(size, link)|);
      HostCallThenReplies(Resolve(v, r.value), reply);
    }
  }

  lemma EnterReplies(v: View, st: State, pid: nat, p: Path, a: Answers)
    ensures OnlyLastReplies(EnterStep(v, st, pid, p, a).effects)
  {
  }

  lemma ListReplies(v: View, st: State, pid: nat, fd: int, capacity: nat, a: Answers)
    requires CursorsInRange(st)
    ensures OnlyLastReplies(ListStep(v, st, pid, fd, capacity, a).effects)
  {
  }

  lemma ChdirReplies(v: View, st: State, pid: nat, a: Answers)
    ensures OnlyLastReplies(ChdirStep(v, st, pid, a).effects)
  {
    var r := ReadAndResolve(v, st, a.proc, pid, AT_FDCWD, a.path);
    if r.Ok? {
      EnterReplies(v, st, pid, r.value, a);
    }
  }

  lemma FchdirReplies(v: View, st: State, pid: nat, fd: int, a: Answers)
    ensures OnlyLastReplies(FchdirStep(v, st, pid, fd, a).effects)
  {
    if Tracked(v, st, a.proc, pid, fd) {
      EnterReplies(v, st, pid, st.directories[Key(ProcessKey(a.proc, pid), fd)].path, a);
    }
  }

  /** Every notification is answered exactly once, and nothing follows the answer. */
  lemma ExactlyOneReply(v: View, st: State, n: Notification, a: Answers)
    requires CursorsInRange(st)
    requires Panic !in Step(v, st, n, a).effects
    ensures OnlyLastReplies(Step(v, st, n, a).effects)
    ensures Replies(Step(v, st, n, a).effects) == 1
  {
    if NamesAPath(n.call) {
      PathAnswerComesLast(v, st, n, a);
    } else {
      OtherAnswerComesLast(v, st, n, a);
    }
    LastRepliesOnce(Step(v, st, n, a).effects);
  }

  predicate NamesAPath(c: Dispatch.Call) {
    c.Exec? || c.Open? || c.OnPath? || c.Rename? || c.Readlink?
  }

  lemma PathAnswerComesLast(v: View, st: State, n: Notification, a: Answers)
    requires CursorsInRange(st) && NamesAPath(n.call)
    requires Panic !in Step(v, st, n, a).effects
    ensures OnlyLastReplies(Step(v, st, n, a).effects)
  {
    match n.call {
      case Exec(dirfd, nofollow) => ExecReplies(v, st, n.pid, dirfd, nofollow, a);
      case Open(dirfd, structured, directory, _) => OpenReplies(v, st, n.pid, dirfd, structured, directory, a);
      case OnPath(kind, dirfd) => PathCallReplies(v, st, n.pid, kind, dirfd, a);
      case Rename(dirfd, newDirfd, flags) => RenameReplies(v, st, n.pid, dirfd, newDirfd, flags, a);
      case Readlink(dirfd, size) => ReadlinkReplies(v, st, n.pid, dirfd, size, a);
      case _ =>
    }
  }

  lemma OtherAnswerComesLast(v: View, st: State, n: Notification, a: Answers)
    requires CursorsInRange(st) && !NamesAPath(n.call)
    ensures OnlyLastReplies(Step(v, st, n, a).effects)
  {
    match n.call {
      case Getcwd(size) => assert OnlyLastReplies(GetcwdEffects(st, n.pid, size, a));
      case ListDirectory(fd, capacity) => ListReplies(v, st, n.pid, fd, capacity, a);
      case Chdir => ChdirReplies(v, st, n.pid, a);
      case Fchdir(fd) => FchdirReplies(v, st, n.pid, fd, a);
      case _ =>
    }
  }

  /** How the notification is answered: its last effect. */
  function Answered(v: View, st: State, n: Notification, a: Answers): Reply
    requires CursorsInRange(st)
  {
    var effects := Step(v, st, n, a).effects;
    if effects != [] && effects[|effects| - 1].Terminal? then effects[|effects| - 1].reply else Continue
  }

  /** Over a whole run there are exactly as many replies as notifications. */
  lemma {:induction false} OneReplyPerNotification(v: View, st: State, events: seq<Event>)
    requires Clean(v) && Invariant(v, st) && GoodEvents(events)
    ensures Replies(RunEffects(v, st, events)) == |events|
    decreases |events|
  {
    if events != [] {
      var n, a := events[0].notification, events[0].answers;
      var o := Step(v, st, n, a);
      StepKeepsInvariant(v, st, n, a);
      ExactlyOneReply(v, st, n, a);
      RepliesAppend(o.effects, RunEffects(v, o.state, events[1..]));
      OneReplyPerNotification(v, o.state, events[1..]);
    }
  }

  function DirectoryArgument(n: Notification): int {
    match n.call
    case Exec(d, _) => d
    case Open(d, _, _, _) => d
    case OnPath(_, d) => d
    case Readlink(d, _) => d
    case _ => AT_FDCWD
  }

  /** The path a call names, when it could be read and resolved. */
  function Target(v: View, st: State, n: Notification, a: Answers): Option<Path> {
    if n.call.Exec? || n.call.Open? || n.call.OnPath? || n.call.Readlink? || n.call.Chdir? then
      match ReadAndResolve(v, st, a.proc, n.pid, DirectoryArgument(n), a.path)
      case Ok(p) => Some(p)
      case Err(_) => None
    else None
  }

  /** The kernel sees the rewritten alias, not the guest pathname. */
  ghost predicate Rewritten(v: View, p: Path, effects: seq<Effect>) {
    exists fd: nat ::
      effects == [HostCall(Resolve(v, p)), InjectFd(fd), RewritePathname(ExecutableAlias(fd)), Terminal(Continue)]
  }

  lemma OwnCwdIsReserved(p: Path, pid: nat, key: nat)
    requires IsOwnProcCwd(p, pid, key)
    ensures Reserved(p)
  {
    assert p[0] == PROC;
    assert [PROC] <= p;
  }

  ghost predicate CallsOnly(effects: seq<Effect>, p: Path) {
    forall e :: e in effects && e.HostCall? ==> e.path == p
  }

  lemma ExecNeverFallsThrough(v: View, st: State, pid: nat, dirfd: int, nofollow: bool, a: Answers, p: Path)
    requires ReadAndResolve(v, st, a.proc, pid, dirfd, a.path) == Ok(p) && Projects(v, p)
    ensures var effects := ExecEffects(v, st, pid, dirfd, nofollow, a);
            && CallsOnly(effects, Resolve(v, p))
            && (Terminal(Continue) in effects ==> Rewritten(v, p, effects))
  {
    var effects := ExecEffects(v, st, pid, dirfd, nofollow, a);
    if !nofollow && !HasNul(Resolve(v, p)) && a.host.Ok? && a.inject.Ok? && a.rewrite.None? {
      var fd := a.inject.value;
      assert effects ==
             [HostCall(Resolve(v, p)), InjectFd(fd), RewritePathname(ExecutableAlias(fd)), Terminal(Continue)];
    }
  }

  lemma PathCallNeverFallsThrough(v: View, st: State, pid: nat, kind: PathCall, dirfd: int, a: Answers, p: Path)
    requires ReadAndResolve(v, st, a.proc, pid, dirfd, a.path) == Ok(p) && Projects(v, p)
    ensures var effects := OnPathEffects(v, st, pid, kind, dirfd, a);
            CallsOnly(effects, Resolve(v, p)) && Terminal(Continue) !in effects
  {
    var effects := OnPathEffects(v, st, pid, kind, dirfd, a);
    assert |effects| == 1 ==> effects[0] == Panic || (effects[0].Terminal? && effects[0].reply.Error?);
    assert |effects| > 1 ==> effects[0] == HostCall(Resolve(v, p));
    assert |effects| == 2 ==> effects[1].Terminal? && effects[1].reply != Continue;
    assert |effects| == 3 ==> effects[1].WriteGuest? && effects[2] == Terminal(Value(0));
    assert 1 <= |effects| <= 3;
  }

  lemma OpenNeverFallsThrough(v: View, st: State, pid: nat, dirfd: int, structured: bool, directory: bool, a: Answers,
                              p: Path)
    requires ReadAndResolve(v, st, a.proc, pid, dirfd, a.path) == Ok(p) && Projects(v, p)
    ensures var effects := OpenStep(v, st, pid, dirfd, structured, directory, a).effects;
            CallsOnly(effects, Resolve(v, p)) && Terminal(Continue) !in effects
  {
  }

  lemma ChdirNeverFallsThrough(v: View, st: State, pid: nat, a: Answers, p: Path)
    requires ReadAndResolve(v, st, a.proc, pid, AT_FDCWD, a.path) == Ok(p) && Projects(v, p)
    ensures var effects := ChdirStep(v, st, pid, a).effects;
            CallsOnly(effects, Resolve(v, p)) && (Terminal(Continue) in effects ==> Resolve(v, p) == p)
  {
    assert ChdirStep(v, st, pid, a) == EnterStep(v, st, pid, p, a);
  }

  lemma ReadlinkNeverFallsThrough(v: View, st: State, pid: nat, dirfd: int, size: nat, a: Answers, p: Path)
    requires ReadAndResolve(v, st, a.proc, pid, dirfd, a.path) == Ok(p) && Projects(v, p)
    ensures var effects := ReadlinkEffects(v, st, pid, dirfd, size, a);
            CallsOnly(effects, Resolve(v, p)) && Terminal(Continue) !in effects
  {
    if IsOwnProcCwd(p, pid, ProcessKey(a.proc, pid)) {
      OwnCwdIsReserved(p, pid, ProcessKey(a.proc, pid));
    }
  }

  /**
    For a projected path the kernel never continues with the guest pathname, except `chdir`
    where guest and host path coincide; exec continues only after its pathname was rewritten.
    Every host call is at the resolved path.
   */
  lemma ProjectedNeverFallsThrough(v: View, st: State, n: Notification, a: Answers, p: Path)
    requires CursorsInRange(st)
    requires Target(v, st, n, a) == Some(p) && Projects(v, p)
    ensures Terminal(Continue) in Step(v, st, n, a).effects ==>
              || (n.call.Chdir? && Resolve(v, p) == p)
              || (n.call.Exec? && Rewritten(v, p, Step(v, st, n, a).effects))
    ensures CallsOnly(Step(v, st, n, a).effects, Resolve(v, p))
  {
    match n.call {
      case Exec(dirfd, nofollow) => ExecNeverFallsThrough(v, st, n.pid, dirfd, nofollow, a, p);
      case Readlink(dirfd, size) => ReadlinkNeverFallsThrough(v, st, n.pid, dirfd, size, a, p);
      case Chdir => ChdirNeverFallsThrough(v, st, n.pid, a, p);
      case OnPath(kind, dirfd) => PathCallNeverFallsThrough(v, st, n.pid, kind, dirfd, a, p);
      case Open(dirfd, structured, directory, _) =>
        OpenNeverFallsThrough(v, st, n.pid, dirfd, structured, directory, a, p);
      case _ =>
    }
  }

  /** The arguments besides the pathname could be read. */
  predicate ArgumentsRead(n: Notification, a: Answers) {
    match n.call
    case Open(_, structured, _, _) => !structured || a.argument.None?
    case OnPath(kind, _) => (kind.Symlink? ==> a.other.Ok?) && (kind == Utimensat(true) ==> a.argument.None?)
    case _ => true
  }

  lemma OpenForwards(v: View, st: State, pid: nat, dirfd: int, structured: bool, directory: bool, a: Answers, p: Path)
    requires ReadAndResolve(v, st, a.proc, pid, dirfd, a.path) == Ok(p) && Projects(v, p) && !HasNul(Resolve(v, p))
    requires structured ==> a.argument.None?
    ensures OpenStep(v, st, pid, dirfd, structured, directory, a).effects ==
            [HostCall(Resolve(v, p)),
             Terminal(if a.host.Err? then Error(a.host.error)
                      else if a.inject.Err? then Error(a.inject.error) else SendFd(a.inject.value))]
  {
  }

  lemma MutatorForwards(v: View, st: State, pid: nat, kind: PathCall, dirfd: int, a: Answers, p: Path)
    requires ReadAndResolve(v, st, a.proc, pid, dirfd, a.path) == Ok(p) && Projects(v, p)
    requires || kind.Mkdir? || kind.Unlink? || (kind.Symlink? && a.other.Ok?)
             || (kind.Truncate? && !HasNul(Resolve(v, p)))
    ensures OnPathEffects(v, st, pid, kind, dirfd, a) ==
            [HostCall(Resolve(v, p)), Terminal(if a.host.Err? then Error(a.host.error) else Value(0))]
  {
  }

  /**
    A projected call that takes one path makes exactly one host call, at the resolved path, and
    answers what the host answered: its errno, the injected descriptor, or success.
   */
  lemma ProjectedCallIsForwarded(v: View, st: State, n: Notification, a: Answers, p: Path)
    requires CursorsInRange(st) && (n.call.OnPath? || n.call.Open?) && ArgumentsRead(n, a)
    requires Target(v, st, n, a) == Some(p) && Projects(v, p) && !HasNul(Resolve(v, p))
    ensures var effects := Step(v, st, n, a).effects;
            && effects != [] && effects[0] == HostCall(Resolve(v, p))
            && (forall i :: 0 < i < |effects| ==> !effects[i].HostCall?)
            && (a.host.Err? ==> effects[1..] == [Terminal(Error(a.host.error))])
            && (a.host.Ok? && n.call.Open? ==>
                  effects[1..] == [Terminal(if a.inject.Ok? then SendFd(a.inject.value) else Error(a.inject.error))])
            && (a.host.Ok? && n.call.OnPath? && !n.call.kind.Stat? ==> effects[1..] == [Terminal(Value(0))])
            && (a.host.Ok? && n.call.OnPath? && n.call.kind.Stat? ==>
                  effects[1..] == if a.write.None? then [WriteGuest([]), Terminal(Value(0))]
                      else [Terminal(Error(a.write.value))])
  {
    match n.call {
      case Open(dirfd, structured, directory, _) => OpenForwards(v, st, n.pid, dirfd, structured, directory, a, p);
      case OnPath(kind, dirfd) => assert Step(v, st, n, a).effects == OnPathEffects(v, st, n.pid, kind, dirfd, a);
      case _ =>
    }
  }

  /**
    A projected exec is continued exactly when it follows links and opening, injecting and rewriting
    all succeeded; with AT_SYMLINK_NOFOLLOW it is refused before anything is done.
   */
  lemma ExecContinuesExactly(v: View, st: State, n: Notification, a: Answers, p: Path)
    requires CursorsInRange(st) && n.call.Exec?
    requires Target(v, st, n, a) == Some(p) && Projects(v, p)
    ensures Terminal(Continue) in Step(v, st, n, a).effects <==>
            !n.call.nofollow && !HasNul(Resolve(v, p)) && a.host.Ok? && a.inject.Ok? && a.rewrite.None?
    ensures n.call.nofollow ==> Step(v, st, n, a).effects == [Terminal(Error(ENOTSUP))]
    ensures !n.call.nofollow && !HasNul(Resolve(v, p)) ==>
              Answered(v, st, n, a) == if a.host.Err? then Error(a.host.error)
                                       else if a.inject.Err? then Error(a.inject.error)
                                       else if a.rewrite.Some? then Error(a.rewrite.value) else Continue
  {
    assert Step(v, st, n, a).effects == ExecEffects(v, st, n.pid, n.call.dirfd, n.call.nofollow, a);
    assert a.path != Ok([]);
    if !n.call.nofollow && !HasNul(Resolve(v, p)) && a.host.Ok? && a.inject.Ok? && a.rewrite.None? {
      assert Step(v, st, n, a).effects[3] == Terminal(Continue);
    }
  }

  /** A link that cannot be read, or an answer that cannot be written, is the errno of that. */
  lemma ReadlinkFails(v: View, st: State, n: Notification, a: Answers, p: Path)
    requires CursorsInRange(st) && n.call.Readlink? && (a.link.Err? || a.write.Some?)
    requires Target(v, st, n, a) == Some(p) && Projects(v, p)
    ensures Step(v, st, n, a).effects ==
            [HostCall(Resolve(v, p)), Terminal(Error(if a.link.Err? then a.link.error else a.write.value))]
  {
    if IsOwnProcCwd(p, n.pid, ProcessKey(a.proc, n.pid)) {
      OwnCwdIsReserved(p, n.pid, ProcessKey(a.proc, n.pid));
    }
    assert Step(v, st, n, a).effects == ReadlinkEffects(v, st, n.pid, n.call.dirfd, n.call.size, a);
  }

  /** Why a call is refused before anything is looked up, in the order the arguments are read. */
  predicate Unreadable(n: Notification, a: Answers, errno: int) {
    if n.call.Rename? then
      n.call.flags == 0 && (a.path == Err(errno) || (a.path == Ok([]) && errno == ENOENT))
    else if n.call.Open? && n.call.structured && a.argument.Some? then errno == a.argument.value
    else if n.call.OnPath? && n.call.kind.Symlink? && a.other.Err? then errno == a.other.error
    else NamesAPathOrDirectory(n.call) && a.path == Err(errno)
  }

  predicate NamesAPathOrDirectory(c: Dispatch.Call) {
    c.Exec? || c.Open? || c.OnPath? || c.Readlink? || c.Chdir?
  }

  /** An argument the tracee's memory does not hold is answered with the errno of reading it, and nothing is done. */
  lemma UnreadableIsReported(v: View, st: State, n: Notification, a: Answers, errno: int)
    requires CursorsInRange(st) && Unreadable(n, a, errno)
    ensures Step(v, st, n, a) == Outcome(st, [Terminal(Error(errno))])
  {
  }

  /** The second end of a rename is read after the first was resolved; a flagged rename reads neither. */
  lemma RenameRefused(v: View, st: State, n: Notification, a: Answers)
    requires CursorsInRange(st) && n.call.Rename?
    ensures n.call.flags != 0 ==> Step(v, st, n, a) == Outcome(st, [Terminal(Error(ENOTSUP))])
    ensures n.call.flags == 0 && ReadAndResolve(v, st, a.proc, n.pid, n.call.dirfd, a.path).Ok? && a.other.Err? ==>
              Step(v, st, n, a) == Outcome(st, [Terminal(Error(a.other.error))])
  {
  }

  /** What is not handled, or asks for a cwd that is not recorded, is the kernel's. */
  lemma PassedOn(v: View, st: State, n: Notification, a: Answers)
    requires CursorsInRange(st)
    requires || n.call.Unhandled?
             || (VirtualCwd(st.cwds, a.proc, n.pid).None?
                 && (|| n.call.Getcwd?
                     || (n.call.Readlink? && Target(v, st, n, a).Some?
                         && IsOwnProcCwd(Target(v, st, n, a).value, n.pid, ProcessKey(a.proc, n.pid)))))
    ensures Step(v, st, n, a) == Outcome(st, [Terminal(Continue)])
  {
  }

  /** The times of a projected utimensat are read last, before the host is called. */
  lemma TimesUnreadable(v: View, st: State, n: Notification, a: Answers, p: Path)
    requires CursorsInRange(st) && n.call.OnPath? && n.call.kind == Utimensat(true) && a.argument.Some?
    requires Target(v, st, n, a) == Some(p) && Projects(v, p) && !HasNul(Resolve(v, p))
    ensures Step(v, st, n, a) == Outcome(st, [Terminal(Error(a.argument.value))])
  {
  }

  /** Entering what is no directory, or cannot be looked at, fails and records nothing. */
  lemma EnteringFails(v: View, st: State, n: Notification, a: Answers, p: Path)
    requires CursorsInRange(st) && n.call.Chdir? && a.isDir != Ok(true)
    requires Target(v, st, n, a) == Some(p) && Projects(v, p)
    ensures Step(v, st, n, a) ==
            Outcome(st, [HostCall(Resolve(v, p)), Terminal(Error(if a.isDir.Err? then a.isDir.error else ENOTDIR))])
  {
  }

  /** Reading a projected link writes the longest prefix of the host link that fits, and its length. */
  lemma ReadlinkTruncates(v: View, st: State, n: Notification, a: Answers, p: Path)
    requires CursorsInRange(st) && n.call.Readlink? && a.link.Ok? && a.write.None?
    requires Target(v, st, n, a) == Some(p) && Projects(v, p)
    ensures exists s :: && Step(v, st, n, a).effects == [HostCall(Resolve(v, p)), WriteGuest(s), Terminal(Value(|s|))]
                        && s <= a.link.value && |s| <= n.call.size
                        && (|s| < n.call.size ==> s == a.link.value)
  {
    if IsOwnProcCwd(p, n.pid, ProcessKey(a.proc, n.pid)) {
      OwnCwdIsReserved(p, n.pid, ProcessKey(a.proc, n.pid));
    }
    var s := Shortest(n.call.size, a.link.value);
    assert Step(v, st, n, a).effects == ReadlinkEffects(v, st, n.pid, n.call.dirfd, n.call.size, a);
    assert Step(v, st, n, a).effects == [HostCall(Resolve(v, p)), WriteGuest(s), Terminal(Value(|s|))];
  }

  /**
    An empty pathname is refused with ENOENT and never read as the cwd; only exec and a stat
    that asks for the descriptor itself leave it to the kernel.
   */
  lemma EmptyPathname(v: View, st: State, n: Notification, a: Answers)
    requires CursorsInRange(st) && ArgumentsRead(n, a) && a.path == Ok([])
    requires n.call.Exec? || n.call.Open? || n.call.OnPath? || n.call.Readlink? || n.call.Chdir?
    ensures Step(v, st, n, a).state == st
    ensures Step(v, st, n, a).effects ==
            [Terminal(if n.call.Exec? || (n.call.OnPath? && n.call.kind == Stat(true)) then Continue
                      else Error(ENOENT))]
  {
  }

  /** A descriptor that no longer names the directory it was opened for is forgotten, and only it. */
  lemma StaleIsForgotten(v: View, st: State, n: Notification, a: Answers)
    requires CursorsInRange(st) && (n.call.ListDirectory? || n.call.Fchdir?)
    requires !Tracked(v, st, a.proc, n.pid, n.call.fd)
    ensures Step(v, st, n, a).effects == [Terminal(Continue)]
    ensures Step(v, st, n, a).state ==
            st.(directories := st.directories - {Key(ProcessKey(a.proc, n.pid), n.call.fd)})
  {
    var key := Key(ProcessKey(a.proc, n.pid), n.call.fd);
    if key !in st.directories {
      assert st.directories - {key} == st.directories;
    }
  }

  /** Outside every bind nothing is done on the host: the kernel continues, or an argument was unreadable. */
  lemma UnprojectedPassesThrough(v: View, st: State, n: Notification, a: Answers, p: Path)
    requires CursorsInRange(st)
    requires Target(v, st, n, a) == Some(p) && !Projects(v, p)
    requires n.call.Readlink? ==> !IsOwnProcCwd(p, n.pid, ProcessKey(a.proc, n.pid))
    requires n.call.Open? && n.call.structured ==> a.argument.None?
    requires n.call.OnPath? && n.call.kind.Symlink? ==> a.other.Ok?
    ensures Step(v, st, n, a).effects == [Terminal(Continue)]
    ensures Step(v, st, n, a).state.directories == st.directories
    ensures !n.call.Chdir? ==> Step(v, st, n, a).state == st
  {
  }

  /** A rename reaches the host exactly within one projection and the kernel exactly outside all of them. */
  lemma RenameIsRouted(v: View, st: State, n: Notification, a: Answers, p: Path, q: Path)
    requires CursorsInRange(st) && n.call.Rename? && n.call.flags == 0
    requires ReadAndResolve(v, st, a.proc, n.pid, n.call.dirfd, a.path) == Ok(p)
    requires ReadAndResolve(v, st, a.proc, n.pid, n.call.newDirfd, a.other) == Ok(q)
    ensures Terminal(Continue) in Step(v, st, n, a).effects <==> !Projects(v, p) && !Projects(v, q)
    ensures HostRename(Resolve(v, p), Resolve(v, q)) in Step(v, st, n, a).effects <==> SameProjection(v, p, q)
    ensures (Projects(v, p) || Projects(v, q)) && !SameProjection(v, p, q) ==>
              Step(v, st, n, a).effects == [Terminal(Error(EXDEV))]
  {
  }

  /** Once the pathname was rewritten, handling the same exec again continues at once. */
  lemma RewrittenExecSettles(v: View, st: State, n: Notification, a: Answers, fd: nat)
    requires CursorsInRange(st) && n.call.Exec? && a.path == Ok(ExecutableAlias(fd))
    ensures Step(v, st, n, a).effects == [Terminal(Continue)]
  {
    AliasIsReserved(v, fd);
  }
}
