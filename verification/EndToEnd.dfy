/**
  From a guest's system call to the guest's view of the file system and to the guest's own memory:
  how a projected call is answered, and what it leaves behind.
 */
module EndToEnd {
  import opened Errno
  import opened Wrappers
  import opened Paths
  import opened Bind
  import M = Remote
  import D = Dispatch
  import S = Supervision
  import G = Getdents
  import H = HostView
  import R = Refinement

  /**
    A guest mkdir, unlink, rmdir, symlink, truncate or creating open strictly below a destination is
    one host call at the resolved path, and its reply tells what the same call on the guest's own
    tree returns, if and only if a file it opened reached the tracee.
   */
  lemma MutationAnsweredAsGuest(v: View, st: D.State, n: D.Notification, a: D.Answers, t: H.Tree, p: Path, op: H.Op)
    requires Ordered(v) && D.CursorsInRange(st) && R.GuestCallOf(v, st, n, a) == Some(R.Change(p, op))
    requires v[ProjectionIndex(v, p).value].destination != p
    requires op.Create? || op.Truncate? ==> !D.HasNul(Resolve(v, p))
    requires H.SourceMounted(t, v[ProjectionIndex(v, p).value].source)
    requires op == H.Rmdir ==> !H.NestedChild(v, p) && forall m :: 0 <= m < |v| ==> v[m].source in t
    requires R.HostAnswers(v, t, R.Change(p, op), a)
    ensures D.Step(v, st, n, a).effects == [D.HostCall(Resolve(v, p)), D.Terminal(S.Answered(v, st, n, a))]
    ensures R.Tells(S.Answered(v, st, n, a), H.GuestPerform(v, t, p, op), n, a) <==> R.Delivered(n, a)
  {
    H.MutationRefines(v, t, p, op);
    R.ChangeForwards(v, st, n, a, p, op);
  }

  /**
    A guest rename within a projection is one host rename of the resolved ends, answered as the guest's own
    tree does.
   */
  lemma RenameAnsweredAsGuest(v: View, st: D.State, n: D.Notification, a: D.Answers, t: H.Tree, p: Path, q: Path)
    requires Ordered(v) && D.CursorsInRange(st) && R.GuestCallOf(v, st, n, a) == Some(R.Move(p, q))
    requires H.SourceMounted(t, v[ProjectionIndex(v, p).value].source)
    requires !H.NestedChild(v, q) && forall m :: 0 <= m < |v| ==> v[m].source in t
    requires R.HostAnswers(v, t, R.Move(p, q), a)
    ensures var d := v[ProjectionIndex(v, p).value].destination;
            var guest := H.RenameError(H.Guest(v, t), d, p[|d|..], q[|d|..], H.GuestEmpty(v, t, q));
            D.Step(v, st, n, a).effects ==
            [D.HostRename(Resolve(v, p), Resolve(v, q)),
             D.Terminal(if guest.None? then D.Value(0) else D.Error(guest.value))]
  {
    H.RenameAnswersAsGuest(v, t, p, q);
    R.MoveForwards(v, st, n, a, p, q);
  }

  // ----- What a refused exec leaves in the tracee -----

  /** How the two routes of a rewrite went. */
  datatype Routes = Routes(first: M.Transfer, openError: Option<int>, second: M.Transfer)

  /** A tracee's memory and its open descriptors. */
  datatype Tracee = Tracee(memory: Bytes, descriptors: set<nat>)

  /** The pathname at `address` was read, a new descriptor would be free, and the rewrite went by those routes. */
  ghost predicate HonestExec(t: Tracee, address: nat, a: D.Answers, r: Routes) {
    && a.path.Ok? && M.PathnameAt(t.memory, address) == Some(a.path.value)
    && (a.inject.Ok? ==>
          && a.inject.value !in t.descriptors
          && var alias := M.ExecutableAlias(a.inject.value);
             && (r.first.Moved? ==> r.first.count <= |alias| + 1)
             && (r.second.Moved? ==> r.second.count <= |alias| + 1)
             && a.rewrite == match M.RewriteResult(a.path.value, alias, r.first, r.openError, r.second)
                             case Ok(_) => None
                             case Err(errno) => Some(errno))
  }

  /** The program was opened and handed over before the pathname was rewritten. */
  predicate HandedOver(v: View, n: D.Notification, a: D.Answers, p: Path) {
    n.call.Exec? && !n.call.nofollow && !D.HasNul(Resolve(v, p)) && a.host.Ok? && a.inject.Ok?
  }

  /** The tracee after a list of effects; a rewrite is tried once a descriptor was injected. */
  function TraceeAfter(t: Tracee, address: nat, a: D.Answers, r: Routes, effects: seq<D.Effect>): Tracee
    requires a.path.Ok? && address + |a.path.value| + 1 <= |t.memory|
    requires forall e :: e in effects && e.InjectFd? ==>
                           && (r.first.Moved? ==> r.first.count <= |M.ExecutableAlias(e.fd)| + 1)
                           && (r.second.Moved? ==> r.second.count <= |M.ExecutableAlias(e.fd)| + 1)
  {
    if effects == [] then t
    else match effects[0]
      case InjectFd(fd) =>
        Tracee(M.AfterRewrite(t.memory, address, a.path.value, M.ExecutableAlias(fd), r.first, r.openError, r.second),
               t.descriptors + {fd})
      case _ => TraceeAfter(t, address, a, r, effects[1..])
  }

  lemma PathnameFits(t: Tracee, address: nat, a: D.Answers, r: Routes)
    requires HonestExec(t, address, a, r)
    ensures address + |a.path.value| + 1 <= |t.memory|
  {
    M.StringFacts(t.memory, address, address + M.MAX_PATH);
  }

  lemma {:induction false} NothingInjected(t: Tracee, address: nat, a: D.Answers, r: Routes, effects: seq<D.Effect>)
    requires a.path.Ok? && address + |a.path.value| + 1 <= |t.memory|
    requires forall i :: 0 <= i < |effects| ==> !effects[i].InjectFd?
    ensures TraceeAfter(t, address, a, r, effects) == t
    decreases |effects|
  {
    if effects != [] {
      assert !effects[0].InjectFd?;
      NothingInjected(t, address, a, r, effects[1..]);
    }
  }

  /** The only descriptor injected is the one of an exec that was handed over. */
  ghost predicate InjectsOnly(v: View, n: D.Notification, a: D.Answers, p: Path, effects: seq<D.Effect>) {
    forall e :: e in effects && e.InjectFd? ==> HandedOver(v, n, a, p) && e.fd == a.inject.value
  }

  lemma ExecHandsOver(v: View, st: D.State, n: D.Notification, a: D.Answers, p: Path)
    requires D.CursorsInRange(st) && n.call.Exec? && S.Target(v, st, n, a) == Some(p) && Projects(v, p)
    ensures var effects := D.Step(v, st, n, a).effects;
            if HandedOver(v, n, a, p)
            then |effects| > 1 && effects[0].HostCall? && effects[1] == D.InjectFd(a.inject.value)
            else forall i :: 0 <= i < |effects| ==> !effects[i].InjectFd?
    ensures InjectsOnly(v, n, a, p, D.Step(v, st, n, a).effects)
  {
    assert D.Step(v, st, n, a).effects == D.ExecEffects(v, st, n.pid, n.call.dirfd, n.call.nofollow, a);
  }

  lemma {:induction false} TraceeOfExec(v: View, st: D.State, n: D.Notification, a: D.Answers, p: Path,
                                        t: Tracee, address: nat, r: Routes)
    requires D.CursorsInRange(st) && n.call.Exec? && S.Target(v, st, n, a) == Some(p) && Projects(v, p)
    requires HonestExec(t, address, a, r) && address + |a.path.value| + 1 <= |t.memory|
    requires InjectsOnly(v, n, a, p, D.Step(v, st, n, a).effects)
    ensures TraceeAfter(t, address, a, r, D.Step(v, st, n, a).effects) ==
            if HandedOver(v, n, a, p)
            then Tracee(M.AfterRewrite(t.memory, address, a.path.value, M.ExecutableAlias(a.inject.value),
                                       r.first, r.openError, r.second),
                        t.descriptors + {a.inject.value})
            else t
  {
    var effects := D.Step(v, st, n, a).effects;
    ExecHandsOver(v, st, n, a, p);
    if HandedOver(v, n, a, p) {
      assert effects[1..][0] == effects[1];
    } else {
      NothingInjected(t, address, a, r, effects);
    }
  }

  /**
    A refused exec of a projected program leaves the tracee as it was if and only if it was refused
    before the program was handed over: otherwise the descriptor stays. Its memory is unchanged
    then too, and later exactly when the alias was too long to write or whatever was written of it
    was there already.
   */
  lemma {:induction false} RefusedExecExactly(v: View, st: D.State, n: D.Notification, a: D.Answers, p: Path,
                                              t: Tracee, address: nat, r: Routes)
    requires D.CursorsInRange(st) && n.call.Exec? && S.Target(v, st, n, a) == Some(p) && Projects(v, p)
    requires HonestExec(t, address, a, r) && S.Answered(v, st, n, a).Error?
    ensures address + |a.path.value| + 1 <= |t.memory|
    ensures var after := TraceeAfter(t, address, a, r, D.Step(v, st, n, a).effects);
            && (after == t <==> !HandedOver(v, n, a, p))
            && (after.memory == t.memory <==>
                || !HandedOver(v, n, a, p)
                || |M.ExecutableAlias(a.inject.value)| > |a.path.value|
                || var k := M.Reached(r.first, r.openError, r.second);
                   t.memory[address..address + k] == (M.ExecutableAlias(a.inject.value) + [0])[..k])
  {
    PathnameFits(t, address, a, r);
    ExecHandsOver(v, st, n, a, p);
    TraceeOfExec(v, st, n, a, p, t, address, r);
    if HandedOver(v, n, a, p) {
      S.ExecContinuesExactly(v, st, n, a, p);
      M.RefusedRewriteExactly(t.memory, address, a.path.value, M.ExecutableAlias(a.inject.value),
                              r.first, r.openError, r.second);
    }
  }

  /**
    A continued exec of a projected program finds at its pathname, in place of what it was called
    with, the alias of a descriptor that was not open before and is now; no other byte has changed.
   */
  lemma {:induction false} ContinuedExecNamesProgram(v: View, st: D.State, n: D.Notification, a: D.Answers, p: Path,
                                                     t: Tracee, address: nat, r: Routes)
    requires D.CursorsInRange(st) && n.call.Exec? && S.Target(v, st, n, a) == Some(p) && Projects(v, p)
    requires HonestExec(t, address, a, r) && S.Answered(v, st, n, a) == D.Continue
    ensures a.inject.Ok? && a.inject.value !in t.descriptors && address + |a.path.value| + 1 <= |t.memory|
    ensures var after := TraceeAfter(t, address, a, r, D.Step(v, st, n, a).effects);
            && M.PathnameAt(after.memory, address) == Some(M.ExecutableAlias(a.inject.value))
            && after.descriptors == t.descriptors + {a.inject.value}
            && |after.memory| == |t.memory|
            && forall i :: 0 <= i < |t.memory| && !(address <= i <= address + |a.path.value|) ==>
                             after.memory[i] == t.memory[i]
  {
    PathnameFits(t, address, a, r);
    ExecHandsOver(v, st, n, a, p);
    assert HandedOver(v, n, a, p) && a.rewrite.None? by {
      S.ExecContinuesExactly(v, st, n, a, p);
      assert D.Step(v, st, n, a).effects == D.ExecEffects(v, st, n.pid, n.call.dirfd, n.call.nofollow, a);
    }
    TraceeOfExec(v, st, n, a, p, t, address, r);
    AliasWritten(t, address, a, r);
  }

  lemma AliasWritten(t: Tracee, address: nat, a: D.Answers, r: Routes)
    requires HonestExec(t, address, a, r) && a.inject.Ok? && a.rewrite.None?
    requires address + |a.path.value| + 1 <= |t.memory|
    ensures var alias := M.ExecutableAlias(a.inject.value);
            var after := M.AfterRewrite(t.memory, address, a.path.value, alias, r.first, r.openError, r.second);
            && M.PathnameAt(after, address) == Some(alias)
            && forall i :: 0 <= i < |t.memory| && !(address <= i <= address + |a.path.value|) ==>
                             after[i] == t.memory[i]
  {
    var alias := M.ExecutableAlias(a.inject.value);
    M.AliasIsReserved([], a.inject.value);
    M.StringFacts(t.memory, address, address + M.MAX_PATH);
    M.RewriteSucceedsExactly(a.path.value, alias, r.first, r.openError, r.second);
    M.RewriteReadsBack(t.memory, address, a.path.value, alias, r.first, r.openError, r.second);
  }

  // ----- Reading a directory through the supervisor -----

  function WrittenBytes(effects: seq<D.Effect>): Bytes {
    if effects == [] then []
    else (if effects[0].WriteGuest? then effects[0].bytes else []) + WrittenBytes(effects[1..])
  }

  /** The notification reads the directory opened at `path` through the descriptor `key`. */
  predicate ReadsFrom(v: View, e: S.Event, key: D.Key, path: Path) {
    && e.notification.call.ListDirectory?
    && D.Key(D.ProcessKey(e.answers.proc, e.notification.pid), e.notification.call.fd) == key
    && D.DirectoryMatches(v, e.answers.proc, e.notification.pid, e.notification.call.fd, G.OpenDirectory(path, [], 0))
  }

  /** The notification may change what is recorded for `key`. */
  predicate Touches(e: S.Event, key: D.Key) {
    var tgid := D.ProcessKey(e.answers.proc, e.notification.pid);
    match e.notification.call
    case Open(_, _, _, _) => e.answers.inject.Ok? && D.Key(tgid, e.answers.inject.value) == key
    case ListDirectory(fd, _) => D.Key(tgid, fd) == key
    case Fchdir(fd) => D.Key(tgid, fd) == key
    case _ => false
  }

  /** Whoever touches the descriptor reads from it while it is still the directory that was opened. */
  ghost predicate OnlyRead(v: View, events: seq<S.Event>, key: D.Key, path: Path) {
    forall i :: 0 <= i < |events| && Touches(events[i], key) ==> ReadsFrom(v, events[i], key, path)
  }

  /** The reads among the notifications, as calls of a reading session. */
  function Reads(events: seq<S.Event>, key: D.Key): seq<G.Call> {
    if events == [] then []
    else (if Touches(events[0], key) && events[0].notification.call.ListDirectory?
          then [G.Call(events[0].notification.call.capacity, events[0].answers.write)] else [])
         + Reads(events[1..], key)
  }

  /** What those reads wrote into the readers, in order. */
  function Received(v: View, st: D.State, events: seq<S.Event>, key: D.Key): Bytes
    requires D.CursorsInRange(st)
    decreases |events|
  {
    if events == [] then []
    else
      var o := D.Step(v, st, events[0].notification, events[0].answers);
      (if Touches(events[0], key) && events[0].notification.call.ListDirectory? then WrittenBytes(o.effects) else [])
      + Received(v, o.state, events[1..], key)
  }

  lemma UntouchedDirectory(v: View, st: D.State, e: S.Event, key: D.Key)
    requires D.CursorsInRange(st) && key in st.directories && !Touches(e, key)
    ensures var after := D.Step(v, st, e.notification, e.answers).state.directories;
            key in after && after[key] == st.directories[key]
  {
  }

  lemma OneRead(v: View, st: D.State, e: S.Event, key: D.Key)
    requires D.CursorsInRange(st) && key in st.directories && ReadsFrom(v, e, key, st.directories[key].path)
    ensures var d := st.directories[key];
            var o := D.Step(v, st, e.notification, e.answers);
            var (d', reply) := G.Page(d, e.notification.call.capacity, e.answers.write);
            && key in o.state.directories && o.state.directories[key] == d'
            && WrittenBytes(o.effects) == if reply.Delivered? then reply.output else []
  {
    var n, a := e.notification, e.answers;
    assert D.Tracked(v, st, a.proc, n.pid, n.call.fd);
    var o := D.Step(v, st, n, a);
    assert o == D.ListStep(v, st, n.pid, n.call.fd, n.call.capacity, a);
    assert WrittenBytes(o.effects[1..]) == [];
  }

  /** Between other notifications, the reads of one descriptor are one reading session. */
  lemma {:induction false} ReadsAreASession(v: View, st: D.State, events: seq<S.Event>, key: D.Key)
    requires D.CursorsInRange(st) && key in st.directories && OnlyRead(v, events, key, st.directories[key].path)
    ensures var (d, output) := G.Session(st.directories[key], Reads(events, key));
            && Received(v, st, events, key) == output
            && key in S.Run(v, st, events).directories && S.Run(v, st, events).directories[key] == d
    decreases |events|
  {
    if events != [] {
      var e, st' := events[0], D.Step(v, st, events[0].notification, events[0].answers).state;
      assert forall i :: 0 <= i < |events| - 1 ==> events[1..][i] == events[i + 1];
      if Touches(e, key) {
        OneRead(v, st, e, key);
        ReadsAreASession(v, st', events[1..], key);
        var call := G.Call(e.notification.call.capacity, e.answers.write);
        assert Reads(events, key) == [call] + Reads(events[1..], key);
        assert Reads(events, key)[1..] == Reads(events[1..], key);
      } else {
        UntouchedDirectory(v, st, e, key);
        ReadsAreASession(v, st', events[1..], key);
        assert Reads(events, key) == [] + Reads(events[1..], key) == Reads(events[1..], key);
      }
    }
  }

  /**
    How a read of a live directory is answered: EINVAL, without moving, exactly when the next record
    does not fit; otherwise the errno of the write if it failed; otherwise the number of bytes
    written, which is zero exactly at the end.
   */
  lemma ReadIsAnswered(v: View, st: D.State, n: D.Notification, a: D.Answers, key: D.Key)
    requires D.CursorsInRange(st) && n.call.ListDirectory?
    requires D.Tracked(v, st, a.proc, n.pid, n.call.fd) && key == D.Key(D.ProcessKey(a.proc, n.pid), n.call.fd)
    ensures var o, d := D.Step(v, st, n, a), st.directories[key];
            && key in o.state.directories
            && o.state.directories[key].entries == d.entries
            && d.cursor <= o.state.directories[key].cursor <= |d.entries|
            && (if TooBig(d, n.call.capacity) then o.effects == D.Fail(EINVAL) && o.state.directories[key] == d
                else if a.write.Some? then o.effects == D.Fail(a.write.value)
                else
                  var bytes := G.Encode(d.entries, d.cursor, o.state.directories[key].cursor);
                  && o.effects == [D.WriteGuest(bytes), D.Terminal(D.Value(|bytes|))]
                  && |bytes| <= n.call.capacity
                  && (|bytes| == 0 <==> d.cursor == |d.entries|))
  {
    var d := st.directories[key];
    assert D.Step(v, st, n, a) == D.ListStep(v, st, n.pid, n.call.fd, n.call.capacity, a);
    G.CursorStops(d.entries, d.cursor, n.call.capacity);
    D.NonEmptyPage(d.entries, d.cursor, G.NextCursor(d.entries, d.cursor, n.call.capacity));
  }

  /** The next record is longer than the buffer. */
  predicate TooBig(d: G.OpenDirectory, capacity: nat)
    requires d.cursor <= |d.entries|
  {
    d.cursor < |d.entries| && |G.Record(d.entries[d.cursor], d.cursor + 1)| > capacity
  }

  // ----- A reader that believes the replies -----

  /** What a reader takes of one answer: the first `n` bytes of its buffer when the reply is `n`. */
  function Taken(effects: seq<D.Effect>): Bytes {
    var written := WrittenBytes(effects);
    if effects == [] then []
    else match effects[|effects| - 1]
      case Terminal(Value(n)) => if 0 <= n <= |written| then written[..n] else written
      case _ => []
  }

  predicate SaysEnd(effects: seq<D.Effect>) {
    effects != [] && effects[|effects| - 1] == D.Terminal(D.Value(0))
  }

  /** What such a reader has after a run, and whether it has stopped: it reads on until a reply is zero. */
  function Believed(v: View, st: D.State, events: seq<S.Event>, key: D.Key): (r: (Bytes, bool))
    requires D.CursorsInRange(st)
    decreases |events|
  {
    if events == [] then ([], false)
    else
      var o := D.Step(v, st, events[0].notification, events[0].answers);
      if !(Touches(events[0], key) && events[0].notification.call.ListDirectory?) then
        Believed(v, o.state, events[1..], key)
      else if SaysEnd(o.effects) then ([], true)
      else
        var (rest, ended) := Believed(v, o.state, events[1..], key);
        (Taken(o.effects) + rest, ended)
  }

  /** Every read has room for any record and reaches the reader. */
  ghost predicate EasyReads(events: seq<S.Event>, key: D.Key) {
    forall c :: c in Reads(events, key) ==> c.capacity >= 280 && c.write.None?
  }

  lemma {:induction false} EasyTail(events: seq<S.Event>, key: D.Key)
    requires events != [] && EasyReads(events, key)
    ensures EasyReads(events[1..], key)
    ensures Touches(events[0], key) && events[0].notification.call.ListDirectory? ==>
              events[0].notification.call.capacity >= 280 && events[0].answers.write.None?
    ensures |Reads(events, key)| ==
            |Reads(events[1..], key)|
            + if Touches(events[0], key) && events[0].notification.call.ListDirectory? then 1 else 0
  {
    forall c | c in Reads(events[1..], key) ensures c in Reads(events, key) {
    }
    if Touches(events[0], key) && events[0].notification.call.ListDirectory? {
      assert Reads(events, key)[0] == G.Call(events[0].notification.call.capacity, events[0].answers.write);
    }
  }

  /** A record of a listed entry fits into 280 bytes. */
  lemma EasyReadFits(d: G.OpenDirectory, capacity: nat)
    requires d.cursor <= |d.entries| && G.GoodEntries(d.entries) && capacity >= 280
    ensures !TooBig(d, capacity)
  {
  }

  /** The reader believes what the cursor passes, and stops exactly at the end. */
  lemma {:induction false} BelievedExactly(v: View, st: D.State, events: seq<S.Event>, key: D.Key)
    requires D.CursorsInRange(st) && key in st.directories && OnlyRead(v, events, key, st.directories[key].path)
    requires G.GoodEntries(st.directories[key].entries) && EasyReads(events, key)
    requires |Reads(events, key)| >= |st.directories[key].entries| - st.directories[key].cursor
    ensures var d, (bytes, ended) := st.directories[key], Believed(v, st, events, key);
            && bytes == G.Encode(d.entries, d.cursor, |d.entries|)
            && (|Reads(events, key)| > |d.entries| - d.cursor ==> ended)
    decreases |events|
  {
    if events != [] {
      EasyTail(events, key);
      OnlyReadTail(v, events, key, st.directories[key].path);
      if Touches(events[0], key) {
        BelievedRead(v, st, events, key);
      } else {
        UntouchedDirectory(v, st, events[0], key);
        BelievedExactly(v, D.Step(v, st, events[0].notification, events[0].answers).state, events[1..], key);
      }
    }
  }

  /** One honest answer: all of it is taken, and nothing is the end. */
  lemma {:induction false} BelievedStep(v: View, st: D.State, events: seq<S.Event>, key: D.Key, bytes: Bytes)
    requires D.CursorsInRange(st) && events != []
    requires Touches(events[0], key) && events[0].notification.call.ListDirectory?
    requires D.Step(v, st, events[0].notification, events[0].answers).effects ==
             [D.WriteGuest(bytes), D.Terminal(D.Value(|bytes|))]
    ensures var next := D.Step(v, st, events[0].notification, events[0].answers).state;
            Believed(v, st, events, key) ==
            if bytes == [] then ([], true)
            else (bytes + Believed(v, next, events[1..], key).0, Believed(v, next, events[1..], key).1)
  {
    var effects := D.Step(v, st, events[0].notification, events[0].answers).effects;
    assert WrittenBytes(effects[1..]) == [];
    assert WrittenBytes(effects) == bytes;
  }

  /** A read with room before the end moves the cursor and is answered with what it passed. */
  lemma EasyRead(v: View, st: D.State, e: S.Event, key: D.Key)
    requires D.CursorsInRange(st) && key in st.directories && ReadsFrom(v, e, key, st.directories[key].path)
    requires G.GoodEntries(st.directories[key].entries)
    requires e.notification.call.capacity >= 280 && e.answers.write.None?
    ensures var o, d := D.Step(v, st, e.notification, e.answers), st.directories[key];
            && key in o.state.directories
            && var d' := o.state.directories[key];
               && d'.entries == d.entries && d'.path == d.path && d.cursor <= d'.cursor <= |d.entries|
               && (d.cursor < |d.entries| ==> d.cursor < d'.cursor)
               && var bytes := G.Encode(d.entries, d.cursor, d'.cursor);
                  && o.effects == [D.WriteGuest(bytes), D.Terminal(D.Value(|bytes|))]
                  && (bytes == [] <==> d.cursor == |d.entries|)
  {
    var d := st.directories[key];
    OneRead(v, st, e, key);
    ReadIsAnswered(v, st, e.notification, e.answers, key);
    EasyReadFits(d, e.notification.call.capacity);
    var d' := D.Step(v, st, e.notification, e.answers).state.directories[key];
    D.NonEmptyPage(d.entries, d.cursor, d'.cursor);
  }

  lemma OnlyReadTail(v: View, events: seq<S.Event>, key: D.Key, path: Path)
    requires events != [] && OnlyRead(v, events, key, path)
    ensures OnlyRead(v, events[1..], key, path)
    ensures Touches(events[0], key) ==> ReadsFrom(v, events[0], key, path)
  {
    assert forall i :: 0 <= i < |events| - 1 ==> events[1..][i] == events[i + 1];
  }

  lemma {:induction false} BelievedRead(v: View, st: D.State, events: seq<S.Event>, key: D.Key)
    requires events != [] && Touches(events[0], key)
    requires D.CursorsInRange(st) && key in st.directories && OnlyRead(v, events, key, st.directories[key].path)
    requires G.GoodEntries(st.directories[key].entries) && EasyReads(events, key)
    requires |Reads(events, key)| >= |st.directories[key].entries| - st.directories[key].cursor
    ensures var d, (bytes, ended) := st.directories[key], Believed(v, st, events, key);
            && bytes == G.Encode(d.entries, d.cursor, |d.entries|)
            && (|Reads(events, key)| > |d.entries| - d.cursor ==> ended)
    decreases |events|, 0
  {
    var e, d := events[0], st.directories[key];
    OnlyReadTail(v, events, key, d.path);
    EasyTail(events, key);
    EasyRead(v, st, e, key);
    var next := D.Step(v, st, e.notification, e.answers).state;
    var d' := next.directories[key];
    BelievedStep(v, st, events, key, G.Encode(d.entries, d.cursor, d'.cursor));
    if d.cursor < |d.entries| {
      BelievedExactly(v, next, events[1..], key);
      G.EncodeSplit(d.entries, d.cursor, d'.cursor, |d.entries|);
    }
  }

  /** The notification opens the projected directory `p`, with or without O_DIRECTORY, and its listing is recorded. */
  predicate OpensDirectory(v: View, st: D.State, open: S.Event, p: Path) {
    && open.notification.call.Open?
    && (open.notification.call.directory || open.answers.isDir == Ok(true))
    && (open.notification.call.structured ==> open.answers.argument.None?)
    && S.Target(v, st, open.notification, open.answers) == Some(p) && Projects(v, p) && !D.HasNul(Resolve(v, p))
    && open.answers.host.Ok? && open.answers.inject.Ok? && open.answers.listing.Ok?
  }

  function OpenedKey(open: S.Event): D.Key
    requires open.answers.inject.Ok?
  {
    D.Key(D.ProcessKey(open.answers.proc, open.notification.pid), open.answers.inject.value)
  }

  lemma OpenRecords(v: View, st: D.State, open: S.Event, p: Path)
    requires D.CursorsInRange(st) && OpensDirectory(v, st, open, p)
    ensures D.Step(v, st, open.notification, open.answers).state ==
            st.(directories := st.directories[OpenedKey(open) := G.OpenDirectory(p, open.answers.listing.value, 0)])
  {
  }

  /** Any other open records nothing, and forgets nothing. */
  lemma OtherOpensRecordNothing(v: View, st: D.State, open: S.Event)
    requires D.CursorsInRange(st) && open.notification.call.Open?
    requires forall p :: !OpensDirectory(v, st, open, p)
    ensures D.Step(v, st, open.notification, open.answers).state == st
  {
    var t := S.Target(v, st, open.notification, open.answers);
    if t.Some? {
      assert !OpensDirectory(v, st, open, t.value);
    }
  }

  /** The descriptor is only read, in large enough pages that arrive, and once per entry at least. */
  ghost predicate ReadToTheEnd(v: View, open: S.Event, events: seq<S.Event>, p: Path) {
    && open.answers.inject.Ok? && open.answers.listing.Ok?
    && OnlyRead(v, events, OpenedKey(open), p)
    && |Reads(events, OpenedKey(open))| >= |open.answers.listing.value|
    && EasyReads(events, OpenedKey(open))
  }

  /**
    Opening a projected directory and reading it until every entry was passed, with any
    notifications of other descriptors in between: a reader that takes of each answer only as many
    bytes as the reply says, and stops when that is zero, decodes exactly the listing taken at the
    open, each entry once and in order; and with one more read it has stopped.
   */
  lemma {:induction false} ListingArrives(v: View, st: D.State, open: S.Event, events: seq<S.Event>, p: Path)
    requires D.CursorsInRange(st) && OpensDirectory(v, st, open, p) && ReadToTheEnd(v, open, events, p)
    requires G.GoodEntries(open.answers.listing.value)
    ensures var st' := D.Step(v, st, open.notification, open.answers).state;
            var es := open.answers.listing.value;
            var (bytes, ended) := Believed(v, st', events, OpenedKey(open));
            && G.Decode(bytes) == Some(G.Expected(es, 0, |es|))
            && (|Reads(events, OpenedKey(open))| > |es| ==> ended)
            && Received(v, st', events, OpenedKey(open)) == bytes
            && OpenedKey(open) in S.Run(v, st', events).directories
            && S.Run(v, st', events).directories[OpenedKey(open)].cursor == |es|
  {
    var es := open.answers.listing.value;
    var st' := D.Step(v, st, open.notification, open.answers).state;
    OpenRecords(v, st, open, p);
    ReadsAreASession(v, st', events, OpenedKey(open));
    G.ReaderFinishes(G.OpenDirectory(p, es, 0), Reads(events, OpenedKey(open)));
    BelievedExactly(v, st', events, OpenedKey(open));
    G.DecodePage(es, 0, |es|);
  }

  /** `es` lists the host directory `h`, each name once. */
  ghost predicate ListsDirectory(t: H.Tree, h: Path, es: seq<G.DirEntry>) {
    && (forall c: Bytes :: (exists i :: 0 <= i < |es| && es[i].name == c) <==> h + [c] in t)
    && (forall i, j :: 0 <= i < j < |es| ==> es[i].name != es[j].name)
  }

  ghost predicate DecodesName(decoded: seq<G.Decoded>, c: Bytes) {
    exists i :: 0 <= i < |decoded| && decoded[i].name == c
  }

  lemma ExpectedNames(es: seq<G.DirEntry>, c: Bytes)
    ensures DecodesName(G.Expected(es, 0, |es|), c) <==> exists i :: 0 <= i < |es| && es[i].name == c
  {
    var decoded := G.Expected(es, 0, |es|);
    assert forall i :: 0 <= i < |es| ==> decoded[i].name == es[i].name;
  }

  /**
    With the listing that the host tree gives, the names a reader decodes are those of the guest's
    own directory, if and only if every destination directly below it is a host entry too.
   */
  lemma {:induction false} ListingIsGuestDirectory(v: View, st: D.State, open: S.Event, events: seq<S.Event>, t: H.Tree,
                                                   p: Path)
    requires Ordered(v) && forall m :: 0 <= m < |v| ==> v[m].source in t
    requires D.CursorsInRange(st) && OpensDirectory(v, st, open, p) && ReadToTheEnd(v, open, events, p)
    requires G.GoodEntries(open.answers.listing.value) && ListsDirectory(t, Resolve(v, p), open.answers.listing.value)
    ensures var st' := D.Step(v, st, open.notification, open.answers).state;
            var decoded := G.Decode(Believed(v, st', events, OpenedKey(open)).0);
            && decoded.Some?
            && ((forall c: Bytes :: DecodesName(decoded.value, c) <==> H.GuestLook(v, t, p + [c]).Some?) <==>
                H.BindsListed(v, t, p))
  {
    var es := open.answers.listing.value;
    ListingArrives(v, st, open, events, p);
    H.ListingAgreesExactly(v, t, p);
    forall c: Bytes ensures DecodesName(G.Expected(es, 0, |es|), c) <==> Resolve(v, p) + [c] in t {
      ExpectedNames(es, c);
    }
  }
}
