/**
  What a relative pathname starts from. The links procfs shows are host paths; the guest path of
  one is said here by the binds alone, and so is what a pathname below it resolves back to.
 */
module Bases {
  import opened Wrappers
  import opened Paths
  import opened Bind
  import opened Getdents
  import opened Dispatch
  import opened Supervision
  import C = GuestCwd

  // ----- The guest path of a host path -----

  /** Of the sources at or above `h` that of bind `j` is the deepest, and the last of those. */
  ghost predicate Picked(v: View, h: Path, j: nat) {
    && j < |v| && v[j].source <= h
    && forall k :: 0 <= k < |v| && v[k].source <= h ==>
                     |v[k].source| < |v[j].source| || (|v[k].source| == |v[j].source| && k <= j)
  }

  /** The guest knows the host path `h` as `g`: through the bind that is picked, or as itself below none. */
  ghost predicate KnownAs(v: View, h: Path, g: Path) {
    || (exists j: nat :: Picked(v, h, j) && g == v[j].destination + h[|v[j].source|..])
    || (g == h && forall k :: 0 <= k < |v| ==> !(v[k].source <= h))
  }

  lemma {:induction false} PickedIsDeepest(v: View, h: Path, j: nat)
    requires Picked(v, h, j)
    ensures DeepestSource(v, h) == Some(j)
  {
    var d := DeepestSource(v, h).value;
    assert v[d].source <= h && |v[j].source| <= |v[d].source|;
  }

  lemma KnownAsExactly(v: View, h: Path, g: Path)
    ensures KnownAs(v, h, g) <==> VirtualForHost(v, h) == g
  {
    if j: nat :| Picked(v, h, j) {
      PickedIsDeepest(v, h, j);
      forall k: nat | Picked(v, h, k) ensures k == j {
        PickedIsDeepest(v, h, k);
      }
    } else if DeepestSource(v, h).Some? {
      assert Picked(v, h, DeepestSource(v, h).value);
    }
  }

  // ----- Where a relative pathname starts -----

  /** No thread group that is asked for a cwd has one recorded. */
  ghost predicate NoCwdRecorded(st: State, proc: Procfs, pid: nat) {
    forall i :: 0 <= i < |C.Ancestors(proc, ProcessKey(proc, pid), MAX_ANCESTORS)| ==>
                  C.Ancestors(proc, ProcessKey(proc, pid), MAX_ANCESTORS)[i] !in st.cwds
  }

  /** The pathname starts from what procfs shows as `link`: a descriptor, or a cwd that is not recorded. */
  ghost predicate StartsAtLink(v: View, st: State, proc: Procfs, pid: nat, dirfd: int, link: Bytes) {
    || (dirfd == AT_FDCWD && NoCwdRecorded(st, proc, pid) && pid in proc.cwdLinks && link == proc.cwdLinks[pid])
    || (dirfd == AT_FDCWD && NoCwdRecorded(st, proc, pid) && pid !in proc.cwdLinks && link == [SLASH])
    || (dirfd != AT_FDCWD && !Tracked(v, st, proc, pid, dirfd)
        && Key(pid, dirfd) in proc.fdLinks && link == proc.fdLinks[Key(pid, dirfd)])
  }

  lemma FromBase(base: Path, path: Bytes)
    requires NormalPath(base) && !IsAbsolute(path)
    ensures Normalize(Join(Print(base), path)) == Lexical(base, path)
  {
    JoinComposes(Print(base), path);
    PrintRoundTrip(base);
  }

  lemma LinkKnownAs(v: View, link: Bytes, g: Path)
    requires if IsAbsolute(link) then KnownAs(v, Normalize(link), g) else g == Normalize(link)
    ensures GuestOfLink(v, link) == g
  {
    KnownAsExactly(v, Normalize(link), g);
  }

  /**
    Below a link that names a host path, a relative pathname continues the guest path of that: the
    destination of the picked bind and the rest of the link, or the link itself below no source. An
    anonymous object is named as it is.
   */
  lemma LinkIsBase(v: View, st: State, proc: Procfs, pid: nat, dirfd: int, path: Bytes, link: Bytes, g: Path)
    requires Clean(v) && path != [] && !IsAbsolute(path) && NulFree(link)
    requires StartsAtLink(v, st, proc, pid, dirfd, link)
    requires if IsAbsolute(link) then KnownAs(v, Normalize(link), g) else g == Normalize(link)
    ensures ResolvePath(v, st, proc, pid, dirfd, path) == Ok(Lexical(g, path))
  {
    LinkKnownAs(v, link, g);
    LinkNormal(v, link);
    FromBase(g, path);
    C.NearestAncestor(st.cwds, proc, ProcessKey(proc, pid), MAX_ANCESTORS);
  }

  /** What the link of a descriptor must be for the directory `d` recorded for it: its canonical host path, if any. */
  function OwnLink(v: View, proc: Procfs, d: OpenDirectory): Path {
    var host := Resolve(v, d.path);
    if host in proc.canonical then proc.canonical[host] else host
  }

  /**
    Below a recorded descriptor the recorded guest path is continued exactly while the link is that
    of the directory; once it names anything else, what it names is.
   */
  lemma RecordedIsBase(v: View, st: State, proc: Procfs, pid: nat, dirfd: int, path: Bytes, d: OpenDirectory, g: Path)
    requires Clean(v) && path != [] && !IsAbsolute(path) && dirfd != AT_FDCWD && NormalPath(d.path)
    requires var key := Key(ProcessKey(proc, pid), dirfd); key in st.directories && st.directories[key] == d
    requires Key(pid, dirfd) in proc.fdLinks
    requires var link := proc.fdLinks[Key(pid, dirfd)];
             IsAbsolute(link) && NulFree(link) && KnownAs(v, Normalize(link), g)
    ensures ResolvePath(v, st, proc, pid, dirfd, path) ==
            if Normalize(proc.fdLinks[Key(pid, dirfd)]) == OwnLink(v, proc, d) then Ok(Lexical(d.path, path))
            else Ok(Lexical(g, path))
  {
    if Normalize(proc.fdLinks[Key(pid, dirfd)]) == OwnLink(v, proc, d) {
      FromBase(d.path, path);
    } else {
      LinkIsBase(v, st, proc, pid, dirfd, path, proc.fdLinks[Key(pid, dirfd)], g);
    }
  }

  /** A descriptor without a link resolves nothing, and an absolute pathname needs none. */
  lemma WithoutBase(v: View, st: State, proc: Procfs, pid: nat, dirfd: int, path: Bytes)
    requires path != []
    ensures IsAbsolute(path) ==> ResolvePath(v, st, proc, pid, dirfd, path) == Ok(Normalize(path))
    ensures !IsAbsolute(path) && dirfd != AT_FDCWD && Key(pid, dirfd) !in proc.fdLinks ==>
              ResolvePath(v, st, proc, pid, dirfd, path) == Err(proc.fdError)
  {
  }

  // ----- What it resolves back to -----

  lemma LexicalBelow(root: Path, rest: Path, path: Bytes)
    requires !IsAbsolute(path) && Climb(path) <= |rest|
    ensures Lexical(root + rest, path) == root + (rest[..|rest| - Climb(path)] + Descent(path))
  {
    LexicalReduces(root + rest, path);
    AboveBelow(root, rest, Climb(path));
    Reassociate(root, rest[..|rest| - Climb(path)], Descent(path));
  }

  lemma AboveBelow(root: Path, rest: Path, n: nat)
    requires n <= |rest|
    ensures Above(root + rest, n) == root + rest[..|rest| - n]
  {
  }

  lemma Reassociate(a: Path, b: Path, c: Path)
    ensures (a + b) + c == a + (b + c)
  {
  }

  /** Bind `i` carries on where `j` would: its source hangs below that of `j` as its destination does. */
  predicate CarriesOn(v: View, j: nat, i: nat)
    requires i < |v| && j < |v|
  {
    v[j].destination <= v[i].destination
    && v[i].source == v[j].source + v[i].destination[|v[j].destination|..]
  }

  lemma BackExactly(v: View, p: Path, j: nat, tail: Path)
    requires Ordered(v) && j < |v| && p == v[j].destination + tail
    ensures Projects(v, p) && v[j].destination <= v[ProjectionIndex(v, p).value].destination
    ensures Resolve(v, p) == v[j].source + tail <==> CarriesOn(v, j, ProjectionIndex(v, p).value)
  {
    ReservedBelow(v[j].destination, tail);
    assert v[j].destination <= p;
    IndexIsLongest(v, p);
    var i := ProjectionIndex(v, p).value;
    PrefixesOf(v[j].destination, v[i].destination, p);
    var between, rest := v[i].destination[|v[j].destination|..], p[|v[i].destination|..];
    assert tail == p[|v[j].destination|..] == between + rest;
    assert v[j].source + tail == (v[j].source + between) + rest;
    SameHead(v[i].source, v[j].source + between, rest);
  }

  /** A pathname that does not climb out of the source goes the same way below source and destination. */
  lemma SameWay(v: View, h: Path, j: nat, path: Bytes) returns (tail: Path)
    requires j < |v| && v[j].source <= h && !IsAbsolute(path) && Climb(path) <= |h| - |v[j].source|
    ensures Lexical(h, path) == v[j].source + tail
    ensures Lexical(v[j].destination + h[|v[j].source|..], path) == v[j].destination + tail
  {
    var rest := h[|v[j].source|..];
    assert v[j].source + rest == h;
    LexicalBelow(v[j].destination, rest, path);
    LexicalBelow(v[j].source, rest, path);
    tail := rest[..|rest| - Climb(path)] + Descent(path);
  }

  /**
    From a host directory below the source of the bind that is picked for it, a pathname that does
    not climb out of that source is resolved back to the same pathname on the host, if and only if
    the bind that then serves it hangs below the picked one alike at both ends.
   */
  lemma ResolvesBackExactly(v: View, h: Path, j: nat, path: Bytes)
    requires Ordered(v) && Picked(v, h, j) && !IsAbsolute(path) && Climb(path) <= |h| - |v[j].source|
    ensures var p := Lexical(v[j].destination + h[|v[j].source|..], path);
            && Projects(v, p)
            && (Resolve(v, p) == Lexical(h, path) <==> CarriesOn(v, j, ProjectionIndex(v, p).value))
  {
    var tail := SameWay(v, h, j, path);
    BackExactly(v, v[j].destination + tail, j, tail);
  }

  /** With binds that nest alike at both ends, and in particular with one bind, it always is. */
  lemma ResolvesBackAlike(v: View, h: Path, j: nat, path: Bytes)
    requires Ordered(v) && NestAlike(v) && Picked(v, h, j) && !IsAbsolute(path) && Climb(path) <= |h| - |v[j].source|
    ensures Resolve(v, Lexical(v[j].destination + h[|v[j].source|..], path)) == Lexical(h, path)
  {
    var tail := SameWay(v, h, j, path);
    BackExactly(v, v[j].destination + tail, j, tail);
    AlikeCarriesOn(v, j, ProjectionIndex(v, v[j].destination + tail).value);
  }

  lemma AlikeCarriesOn(v: View, j: nat, i: nat)
    requires NestAlike(v) && i < |v| && j < |v| && v[j].destination <= v[i].destination
    ensures CarriesOn(v, j, i)
  {
    assert v[i].source == v[j].source + v[i].source[|v[j].source|..];
  }

  /** The directory itself resolves back to its link in every view that round-trips on the host. */
  lemma LinkResolvesBack(v: View, h: Path, g: Path)
    requires HostRoundTrips(v) && NormalPath(h) && UnderSource(v, h) && KnownAs(v, h, g)
    ensures Resolve(v, g) == h
  {
    KnownAsExactly(v, h, g);
  }

  // ----- Threads -----

  /** Threads of one group have one cwd; a process without a readable status is its own group. */
  lemma ThreadsShareCwd(cwds: map<nat, Path>, proc: Procfs, p: nat, q: nat)
    ensures p in proc.tgids && q in proc.tgids && proc.tgids[p] == proc.tgids[q] ==>
              VirtualCwd(cwds, proc, p) == VirtualCwd(cwds, proc, q)
    ensures p in proc.tgids && proc.tgids[p] in cwds ==> VirtualCwd(cwds, proc, p) == Some(cwds[proc.tgids[p]])
    ensures p !in proc.tgids && p in cwds ==> VirtualCwd(cwds, proc, p) == Some(cwds[p])
  {
  }

  /** What one thread records with a chdir or fchdir is at once the cwd of all threads of its group. */
  lemma ThreadsMoveTogether(v: View, st: State, n: Notification, a: Answers, q: nat, p: Path)
    requires CursorsInRange(st) && n.pid in a.proc.tgids && q in a.proc.tgids && a.proc.tgids[n.pid] == a.proc.tgids[q]
    requires (n.call.Chdir? && Target(v, st, n, a) == Some(p))
             || (n.call.Fchdir? && Tracked(v, st, a.proc, n.pid, n.call.fd)
                 && p == st.directories[Key(a.proc.tgids[n.pid], n.call.fd)].path)
    requires !Projects(v, p) || a.isDir == Ok(true)
    ensures VirtualCwd(Step(v, st, n, a).state.cwds, a.proc, q) == Some(p)
  {
    C.CwdsAfter(v, st, n, a);
    ThreadsShareCwd(Step(v, st, n, a).state.cwds, a.proc, n.pid, q);
  }
}
