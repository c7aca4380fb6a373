/**
  A failing input for every promise the code does not keep for all inputs. The exact condition
  under which each is kept is proved beside the result it belongs to.
 */
module Counterexamples {
  import opened Errno
  import opened Wrappers
  import opened Paths
  import opened Bind
  import H = HostView
  import M = TreeMoves
  import HC = HostChanges
  import V = Visibility
  import E = EndToEnd
  import Remote
  import L = Bases
  import G = Getdents
  import opened Dispatch
  import opened Supervision
  import opened GuestCwd

  const A: Bytes := [97]
  const B: Bytes := [98]
  const C: Bytes := [99]
  const S: Bytes := [115]
  const T: Bytes := [116]
  const W: Bytes := [119]
  const X: Bytes := [120]
  const Y: Bytes := [121]

  /** The pathname `../x`. */
  const UP_X: Bytes := [46, 46, 47, 120]

  // ----- Round trips -----

  lemma Names()
    ensures IsName(A) && IsName(B) && IsName(C) && IsName(S) && IsName(T) && IsName(W) && IsName(X)
    ensures A != B && B != C && S != T && S != X && W != X
  {
    assert A[0] != B[0] && B[0] != C[0] && S[0] != T[0] && S[0] != X[0] && W[0] != X[0];
  }

  lemma TwoBinds(p: Projection, q: Projection)
    requires |p.destination| >= |q.destination| && p.destination != q.destination
    requires p.destination != [] && q.destination != [] && |p.destination[0]| == 1 && |q.destination[0]| == 1
    requires NormalPath(p.source) && NormalPath(p.destination) && NormalPath(q.source) && NormalPath(q.destination)
    ensures ValidView([p, q])
  {
    assert p.destination[0] != DEV && p.destination[0] != PROC && p.destination[0] != SYS;
    assert q.destination[0] != DEV && q.destination[0] != PROC && q.destination[0] != SYS;
    var v := [p, q];
    forall i, j | 0 <= i < j < |v| ensures Depth(v[i]) >= Depth(v[j]) && v[i].destination != v[j].destination {
      assert i == 0 && j == 1;
    }
  }

  /** One source bound twice: `/a` comes back as `/b`. */
  lemma SharedSourceLosesGuestPath()
    ensures var v := [Projection([S], [A]), Projection([S], [B])];
            ValidView(v) && !GuestRoundTrips(v) && VirtualForHost(v, Resolve(v, [A])) == [B]
  {
    var v := [Projection([S], [A]), Projection([S], [B])];
    Names();
    assert v[0].destination[0] != v[1].destination[0];
    TwoBinds(v[0], v[1]);
    NothingShadowsItself(v, 0);
    UnshadowedSelects(v, 0, []);
    assert [A] + [] == [A] && [S] + [] == [S];
    assert Resolve(v, [A]) == [S];
    assert DeepestSource(v, [S]) == Some(1);
    GuestRefuted(v, [A]);
  }

  /** A bind inside another hides `/s/b`: its guest path resolves to `/t`. */
  lemma NestedDestinationHidesHostPath()
    ensures var v := [Projection([T], [A, B]), Projection([S], [A])];
            ValidView(v) && !HostRoundTrips(v) && Resolve(v, VirtualForHost(v, [S, B])) == [T]
  {
    var v := [Projection([T], [A, B]), Projection([S], [A])];
    Names();
    assert |v[0].destination| != |v[1].destination|;
    TwoBinds(v[0], v[1]);
    assert [S] <= [S, B] && [T][0] != [S, B][0];
    assert v[..2][..1] == v[..1] && v[1].source <= [S, B];
    assert DeepestSource(v, [S, B]) == Some(1);
    assert [A] + [S, B][1..] == [A, B];
    NothingShadowsItself(v, 0);
    UnshadowedSelects(v, 0, []);
    assert [A, B] + [] == [A, B] && [T] + [] == [T];
    assert UnderSource(v, [S, B]);
    HostRefuted(v, [S, B]);
  }

  // ----- A bind inside a directory -----

  /** `/t` is bound at `/a/b/c` and `/s` at `/a`; on the host `/s/b` and `/s/c` are empty directories. */
  const NESTED: View := [Projection([T], [A, B, C]), Projection([S], [A])]

  const EMPTY_INSIDE: H.Tree := map[[] := H.Dir, [S] := H.Dir, [S, B] := H.Dir, [S, C] := H.Dir, [T] := H.Dir]

  lemma NestedIsValid()
    ensures ValidView(NESTED)
  {
    Names();
    assert |NESTED[0].destination| != |NESTED[1].destination|;
    TwoBinds(NESTED[0], NESTED[1]);
  }

  lemma NestedResolves(c: Bytes)
    requires c == B || c == C
    ensures Projects(NESTED, [A, c]) && ProjectionIndex(NESTED, [A, c]) == Some(1) && Resolve(NESTED, [A, c]) == [S, c]
  {
    NestedIsValid();
    assert [A] + [c] == [A, c] && [S] + [c] == [S, c];
    assert !H.NestedChild([], []);
    assert !DestinationShadows(NESTED, 1, [c]) by {
      assert !([A, B, C] <= [A, c]);
    }
    UnshadowedSelects(NESTED, 1, [c]);
  }

  lemma EmptyInsideHost(c: Bytes)
    requires c == B || c == C
    ensures H.Walk(H.Host(EMPTY_INSIDE), [], [S, c]).None? && H.Look(EMPTY_INSIDE, [S, c]) == Some(H.Dir)
    ensures H.HostEmpty(EMPTY_INSIDE, [S, c])
    ensures H.SourceMounted(EMPTY_INSIDE, [S])
  {
    assert [S, c][1..] == [c] && [S][1..] == [] && [] + [S] == [S] && [S] + [c] == [S, c];
    assert H.Walk(H.Host(EMPTY_INSIDE), [S, c], []).None?;
    assert H.Walk(H.Host(EMPTY_INSIDE), [S], [c]).None?;
    assert H.Walk(H.Host(EMPTY_INSIDE), [S], []).None?;
  }

  lemma BindInsideB()
    ensures H.NestedChild(NESTED, [A, B])
  {
    assert [A, B] <= NESTED[0].destination;
  }

  /** The host removes `/s/b`, which for the guest still holds `/a/b/c`. */
  lemma RmdirRemovesOccupiedDirectory()
    ensures H.HostPerform(EMPTY_INSIDE, Resolve(NESTED, [A, B]), H.Rmdir).Ok?
    ensures Projects(NESTED, [A, B]) && !H.GuestPerform(NESTED, EMPTY_INSIDE, [A, B], H.Rmdir).Ok?
  {
    NestedIsValid();
    NestedResolves(B);
    EmptyInsideHost(B);
    BindInsideB();
    H.RmdirAgreesExactly(NESTED, EMPTY_INSIDE, [A, B]);
    H.HostAt(EMPTY_INSIDE, [S, B]);
    H.PerformRmdir(H.Host(EMPTY_INSIDE), [], [S, B], true);
  }

  /** The host renames `/s/c` onto `/s/b`, which for the guest is not empty. */
  lemma RenameReplacesOccupiedDirectory()
    ensures H.HostRename(EMPTY_INSIDE, Resolve(NESTED, [A, C]), Resolve(NESTED, [A, B])).Ok?
    ensures H.RenameError(H.Guest(NESTED, EMPTY_INSIDE), [A], [C], [B],
                          H.GuestEmpty(NESTED, EMPTY_INSIDE, [A, B])).Some?
  {
    NestedIsValid();
    NestedResolves(B);
    NestedResolves(C);
    EmptyInsideHost(B);
    EmptyInsideHost(C);
    BindInsideB();
    assert B[0] != C[0];
    H.RenameAgreesExactly(NESTED, EMPTY_INSIDE, [A, C], [A, B]);
    H.HostAt(EMPTY_INSIDE, [S, B]);
    H.HostAt(EMPTY_INSIDE, [S, C]);
    assert [A, C][1..] == [C] && [A, B][1..] == [B];
    assert [S, B][1] == B && [S, C][1] == C;
    assert H.TargetOccupiedByBinds(NESTED, EMPTY_INSIDE, [A, C], [A, B]);
  }

  /** The listing of `/a/b` is empty, although `/a/b/c` is there. */
  lemma ListingMissesBind()
    ensures H.HostEmpty(EMPTY_INSIDE, Resolve(NESTED, [A, B]))
    ensures H.GuestLook(NESTED, EMPTY_INSIDE, [A, B] + [C]).Some?
    ensures !H.BindsListed(NESTED, EMPTY_INSIDE, [A, B])
  {
    NestedIsValid();
    NestedResolves(B);
    EmptyInsideHost(B);
    BindInsideB();
    assert [A, B] + [C] == NESTED[0].destination && NESTED[0].destination[2] == C;
    assert [S, B] + [C] !in EMPTY_INSIDE;
    NothingShadowsItself(NESTED, 0);
    UnshadowedSelects(NESTED, 0, []);
    assert [A, B, C] + [] == [A, B, C] && [T] + [] == [T];
  }

  /** After `/a/b` is renamed to `/a/c` the guest still sees `/a/b/c`. */
  lemma RenameLeavesBindBehind()
    ensures !M.AlwaysMovesGuestTree(NESTED, [A, B], [A, C])
  {
    NestedIsValid();
    NestedResolves(B);
    NestedResolves(C);
    assert [S, B][1] == B && [S, C][1] == C && B[0] != C[0];
    NothingShadowsItself(NESTED, 0);
    UnshadowedSelects(NESTED, 0, []);
    assert [A, B, C] + [] == [A, B, C] && [A, B] + [C] == [A, B, C];
    assert !M.Corresponds(NESTED, [A, B], [A, C], [C]);
    assert !M.NestedBindsMatch(NESTED, [A, B], [A, C]) by {
      assert [A, B] < NESTED[0].destination && NESTED[0].destination[2..] == [C];
    }
    M.RenameMovesTreeExactly(NESTED, [A, B], [A, C]);
  }

  // ----- The guest cwd -----

  function Nothing(): Procfs {
    Procfs(map[], map[], map[], map[], ENOENT, map[])
  }

  function Saying(path: Bytes, kernelOk: bool, landed: Path): Answers {
    Answers(Nothing(), Ok(path), Err(EIO), None, Err(EIO), Err(EIO), Err(EIO), Err(EIO), Err(EIO), None, None,
            kernelOk, landed, [S, T], [S, T], {})
  }

  /** Process 7 in `/w`, bound to `/s/t`. */
  const BOUND: View := [Projection([S, T], [W])]

  const IN_BIND: State := State(map[7 := [W]], map[])

  lemma BoundIsValid()
    ensures ValidView(BOUND) && Resolve(BOUND, [W]) == [S, T] && !Projects(BOUND, [X])
  {
    Names();
    var w: Path, st: Path, x: Path := [W], [S, T], [X];
    assert w[1..] == [] && st + [] == st;
    assert w[0] != x[0];
    assert !(w <= x);
  }

  lemma UpComponents()
    ensures Components(UP_X) == [ParentDir, Normal(X)]
    ensures Climb(UP_X) == 1
  {
    PiecesOfName(DOUBLE_PERIOD);
    PiecesOfName(X);
    assert UP_X == DOUBLE_PERIOD + [SLASH] + X;
    PiecesConcat(DOUBLE_PERIOD, X);
    assert Pieces(UP_X) == [DOUBLE_PERIOD, X];
    assert [DOUBLE_PERIOD, X][1..] == [X] && [X][1..] == [];
    assert PieceComponents([X]) == [Normal(X)];
    assert PieceComponents(Pieces(UP_X)) == [ParentDir] + [Normal(X)];
    var cs := [ParentDir, Normal(X)];
    assert cs[1..] == [Normal(X)] && cs[1..][1..] == [];
    assert [] + [X] == [X];
    assert ReduceComponent(Reduced(0, []), ParentDir) == Reduced(1, []);
    assert ReduceComponent(Reduced(1, []), Normal(X)) == Reduced(1, [X]);
    assert Reduce(Reduced(1, [X]), cs[1..][1..]) == Reduced(1, [X]);
    assert Reduce(Reduced(1, []), cs[1..]) == Reduced(1, [X]);
  }

  /** `../x` names `/x` from any directory below the root, and `p ++ /x` from below `p`. */
  lemma UpFrom(p: Path, name: Bytes)
    ensures Lexical(p + [name], UP_X) == p + [X]
  {
    UpComponents();
    var cs := [ParentDir, Normal(X)];
    assert cs[1..] == [Normal(X)] && cs[1..][1..] == [];
    assert Parent(p + [name]) == p;
    assert Fold(p + [name], cs) == Fold(p, cs[1..]) == Fold(p + [X], []);
  }

  /** A call of process 7 resolves `../x` to `/x`. */
  lemma UpFromBind(st: State, a: Answers)
    requires st.cwds == map[7 := [W]] && a.path == Ok(UP_X) && a.proc == Nothing()
    ensures ReadAndResolve(BOUND, st, a.proc, 7, AT_FDCWD, a.path) == Ok([X])
  {
    Names();
    OwnEntryIsBase(BOUND, st, a, 7, UP_X);
    UpFrom([], W);
    assert [] + [W] == [W] && [] + [X] == [X];
  }

  /** The kernel refuses `chdir("../x")`, but `/x` stays recorded for a process that is still in `/s/t`. */
  lemma RefusedChdirLeavesWrongEntry()
    ensures var n, a, here := Notification(7, Chdir), Saying(UP_X, false, []), InKernel([S, T]);
            && EntryRight(BOUND, IN_BIND, 7, here) && KernelRefuses(BOUND, IN_BIND, n, a, [W], [S, T])
            && Step(BOUND, IN_BIND, n, a).state.cwds == map[7 := [X]]
            && Move(BOUND, IN_BIND, n, a, here) == here
  {
    BoundIsValid();
    UpDiffers();
    UpIsContinued(Saying(UP_X, false, []));
    assert [X] != [S, T];
  }

  lemma UpDiffers()
    ensures Lexical([W], UP_X) == [X] && Lexical([S, T], UP_X) == [S, X]
    ensures Above([S, T], Climb(UP_X)) != Above([W], Climb(UP_X)) && !IsAbsolute(UP_X)
  {
    UpFrom([], W);
    UpFrom([S], T);
    UpComponents();
    assert [] + [W] == [W] && [] + [X] == [X] && [S] + [T] == [S, T] && [S] + [X] == [S, X];
    assert Above([S, T], 1) == [S] && Above([W], 1) == [];
  }

  lemma UpIsContinued(a: Answers)
    requires a.path == Ok(UP_X) && a.proc == Nothing()
    ensures Step(BOUND, IN_BIND, Notification(7, Chdir), a).state == State(map[7 := [X]], map[])
    ensures Answered(BOUND, IN_BIND, Notification(7, Chdir), a) == Continue
    ensures LeftToKernel(BOUND, [X], a)
  {
    var n := Notification(7, Chdir);
    BoundIsValid();
    UpFromBind(IN_BIND, a);
    FirstChdir(BOUND, IN_BIND, n, a, [X]);
    assert map[7 := [W]][7 := [X]] == map[7 := [X]];
  }

  /** The kernel's own cwd is `/s/t`: it performs `chdir("../x")` and enters `/s/x`, while `/x` is recorded. */
  lemma ContinuedChdirLandsElsewhere()
    ensures var n, a, here := Notification(7, Chdir), Saying(UP_X, true, []), InKernel([S, T]);
            && EntryRight(BOUND, IN_BIND, 7, here) && Displaced(BOUND, n, a, [W])
            && !KernelRefuses(BOUND, IN_BIND, n, a, [W], [S, T])
            && Step(BOUND, IN_BIND, n, a).state.cwds == map[7 := [X]]
            && Move(BOUND, IN_BIND, n, a, here) == InKernel([S, X])
  {
    BoundIsValid();
    UpDiffers();
    UpIsContinued(Saying(UP_X, true, []));
  }

  /** A fchdir on an untracked descriptor, whose link cannot even be read, moves the process but not its entry. */
  lemma UntrackedFchdirLeavesStaleEntry()
    ensures var n, a, here := Notification(7, Fchdir(3)), Saying([], true, [X]), InKernel([S, T]);
            && EntryRight(BOUND, IN_BIND, 7, here) && UntrackedFchdir(BOUND, IN_BIND, n, a, [S, T])
            && Step(BOUND, IN_BIND, n, a).state == IN_BIND
            && Move(BOUND, IN_BIND, n, a, here) == InKernel([X])
  {
    var n, a := Notification(7, Fchdir(3)), Saying([], true, [X]);
    BoundIsValid();
    StaleIsForgotten(BOUND, IN_BIND, n, a);
    assert IN_BIND.directories - {Key(7, 3)} == IN_BIND.directories;
  }

  /** A continued call with the absolute pathname of `/x`. */
  lemma AbsoluteX(st: State, a: Answers, pid: nat)
    requires a.path == Ok(Print([X]))
    ensures ReadAndResolve(BOUND, st, a.proc, pid, AT_FDCWD, a.path) == Ok([X])
    ensures Lexical(a.base, Print([X])) == [X]
  {
    Names();
    PrintRoundTrip([X]);
  }

  /** Process 7 in `/x`, outside the bind. */
  const OUTSIDE: State := State(map[7 := [X]], map[])

  function RenameXY(): Answers {
    Saying(Print([X]), true, []).(other := Ok(Print([Y])))
  }

  /** Anyone, process 7 itself or process 8, renames `/x` to `/y`: the entry of 7 still says `/x`. */
  lemma RenamedDirectoryLeavesEntry(pid: nat)
    ensures var e := Event(Notification(pid, Rename(AT_FDCWD, AT_FDCWD, 0)), RenameXY());
            && EntryRight(BOUND, OUTSIDE, 7, InKernel([X])) && GoesWrong(BOUND, OUTSIDE, e, 7, [X], [X])
            && Step(BOUND, OUTSIDE, e.notification, e.answers) == Outcome(OUTSIDE, [Terminal(Continue)])
            && MoveBy(BOUND, OUTSIDE, e, 7, InKernel([X])) == InKernel([Y])
  {
    var n, a := Notification(pid, Rename(AT_FDCWD, AT_FDCWD, 0)), RenameXY();
    BoundIsValid();
    Names();
    AbsoluteX(OUTSIDE, a, pid);
    PrintRoundTrip([Y]);
    var w: Path, y: Path, x: Path := [W], [Y], [X];
    assert w[0][0] != y[0][0] && x[0][0] != y[0][0];
    assert !Projects(BOUND, y) && Resolve(BOUND, x) == x;
    assert RenameEffects(BOUND, OUTSIDE, pid, AT_FDCWD, AT_FDCWD, 0, a) == [Terminal(Continue)];
    HC.SingleEffect(n, a, Terminal(Continue));
    assert HC.Changed(BOUND, OUTSIDE, n, a) == HC.Renamed(x, y);
    assert y + x[|x|..] == y;
  }

  /** Process 8 shares the cwd of process 7 and enters `/x`: the entry of 7 still says `/w`. */
  lemma SharedCwdIsDragged()
    ensures var e := Event(Notification(8, Chdir), Saying(Print([X]), true, []).(sharers := {7}));
            && EntryRight(BOUND, IN_BIND, 7, InKernel([S, T])) && GoesWrong(BOUND, IN_BIND, e, 7, [W], [S, T])
            && Step(BOUND, IN_BIND, e.notification, e.answers).state.cwds == map[7 := [W], 8 := [X]]
            && MoveBy(BOUND, IN_BIND, e, 7, InKernel([S, T])) == InKernel([X])
  {
    var n, a := Notification(8, Chdir), Saying(Print([X]), true, []).(sharers := {7});
    BoundIsValid();
    AbsoluteX(IN_BIND, a, 8);
    FirstChdir(BOUND, IN_BIND, n, a, [X]);
    HC.EnteringChangesNothing(BOUND, IN_BIND, n, a);
    assert map[7 := [W]][8 := [X]] == map[7 := [W], 8 := [X]];
  }

  /** Process 8, forked by process 7 in `/w`, follows a later chdir of its parent. */
  lemma ParentChdirMovesChild()
    ensures var proc := Nothing().(parents := map[8 := 7]);
            var n, a := Notification(7, Chdir), Saying(UP_X, true, []);
            && VirtualCwd(IN_BIND.cwds, proc, 8) == Some([W])
            && VirtualCwd(Step(BOUND, IN_BIND, n, a).state.cwds, proc, 8) == Some([X])
  {
    var proc := Nothing().(parents := map[8 := 7]);
    var n, a := Notification(7, Chdir), Saying(UP_X, true, []);
    BoundIsValid();
    UpFromBind(IN_BIND, a);
    FirstChdir(BOUND, IN_BIND, n, a, [X]);
    assert CwdFrom(IN_BIND.cwds, proc, 7, 15) == Some([W]);
    assert CwdFrom(IN_BIND.cwds[7 := [X]], proc, 7, 15) == Some([X]);
  }

  // ----- Continued pathnames -----

  /** From `/w`, whose kernel cwd is `/s/t`, `open("../x")` is meant for `/x` and reaches `/s/x`. */
  lemma ContinuedOpenReachesElsewhere()
    ensures var n, a := Notification(7, Open(AT_FDCWD, false, false, None)), Saying(UP_X, true, []);
            && Target(BOUND, IN_BIND, n, a) == Some([X])
            && Step(BOUND, IN_BIND, n, a).effects == [Terminal(Continue)]
            && Resolve(BOUND, [X]) == [X] && Lexical([S, T], UP_X) == [S, X]
  {
    var n, a := Notification(7, Open(AT_FDCWD, false, false, None)), Saying(UP_X, true, []);
    BoundIsValid();
    UpFromBind(IN_BIND, a);
    UpDiffers();
    assert Target(BOUND, IN_BIND, n, a) == Some([X]);
    UnprojectedPassesThrough(BOUND, IN_BIND, n, a, [X]);
  }

  /** `/t` is bound at `/a/b`, `/s` at `/a` and `/s/b` at `/c`: every host path below a source comes back. */
  const CROSSED: View := [Projection([T], [A, B]), Projection([S], [A]), Projection([S, B], [C])]

  lemma CrossedIsValid()
    ensures ValidView(CROSSED)
  {
    Names();
    assert A[0] != C[0];
    forall i | 0 <= i < |CROSSED| ensures CROSSED[i].destination != [] && !Reserved(CROSSED[i].destination) {
      assert |CROSSED[i].destination[0]| == 1;
    }
    forall i, j | 0 <= i < j < |CROSSED|
      ensures Depth(CROSSED[i]) >= Depth(CROSSED[j]) && CROSSED[i].destination != CROSSED[j].destination
    {
      assert |CROSSED[0].destination| == 2 && |CROSSED[1].destination| == 1 && |CROSSED[2].destination| == 1;
      assert [A][0] == A && [C][0] == C;
    }
  }

  lemma CrossedRoundTrips()
    ensures HostRoundTrips(CROSSED)
  {
    CrossedIsValid();
    Names();
    forall j, k | 0 <= j < |CROSSED| && 0 <= k < |CROSSED| && LastOfSource(CROSSED, j)
                  && CROSSED[j].destination < CROSSED[k].destination
      ensures SourceShadows(CROSSED, j, CROSSED[k].destination[|CROSSED[j].destination|..])
    {
      assert j == 1 && k == 0 by {
        assert [C][0] == C && [A][0] == A && [A, B][0] == A && A[0] != C[0];
      }
      assert [A, B][1..] == [B] && [S] + [B] == [S, B];
      assert CROSSED[1].source < CROSSED[2].source && CROSSED[2].source <= CROSSED[1].source + [B];
    }
    HostRoundTripExactly(CROSSED);
  }

  lemma CrossedKnows()
    ensures L.Picked(CROSSED, [S], 1) && L.KnownAs(CROSSED, [S], [A])
  {
    Names();
    assert [T][0] != [S][0];
    assert [S][1..] == [] && [A] + [] == [A];
  }

  lemma BComponents(p: Path)
    ensures Lexical(p, B) == p + [B] && !IsAbsolute(B)
  {
    Names();
    FoldNameOnly(p, B);
  }

  /**
    Through a descriptor of `/s` that is not recorded, `openat(5, "b")` is meant for `/a/b`, which is `/t`, and not
    for `/s/b`, although the view round-trips on the host.
   */
  lemma LinkedOpenReachesBind()
    ensures var proc := Nothing().(fdLinks := map[Key(7, 5) := Print([S])]);
            && HostRoundTrips(CROSSED)
            && ResolvePath(CROSSED, State(map[], map[]), proc, 7, 5, B) == Ok([A, B])
            && Resolve(CROSSED, [A, B]) == [T] && Lexical([S], B) == [S, B]
  {
    CrossedRoundTrips();
    LinkedOpen();
    BComponents([S]);
    assert [S] + [B] == [S, B];
    CrossedBind();
  }

  lemma LinkedOpen()
    ensures var proc := Nothing().(fdLinks := map[Key(7, 5) := Print([S])]);
            ResolvePath(CROSSED, State(map[], map[]), proc, 7, 5, B) == Ok([A, B])
  {
    var proc := Nothing().(fdLinks := map[Key(7, 5) := Print([S])]);
    Names();
    CrossedIsValid();
    CrossedKnows();
    BComponents([A]);
    assert [A] + [B] == [A, B];
    PrintRoundTrip([S]);
    PrintNulFree([S]);
    L.LinkIsBase(CROSSED, State(map[], map[]), proc, 7, 5, B, Print([S]), [A]);
  }

  lemma CrossedBind()
    ensures Resolve(CROSSED, [A, B]) == [T]
  {
    CrossedIsValid();
    NothingShadowsItself(CROSSED, 0);
    UnshadowedSelects(CROSSED, 0, []);
    assert [A, B] + [] == [A, B] && [T] + [] == [T];
  }

  /** Process 7 has opened `/w` as descriptor 3, which the kernel knows as `/s/t`. */
  const OPENED: State := State(map[], map[Key(7, 3) := G.OpenDirectory([W], [], 0)])

  function Linked(): Procfs {
    Nothing().(fdLinks := map[Key(7, 3) := Print([S, T])])
  }

  lemma OpenedBase()
    ensures Tracked(BOUND, OPENED, Linked(), 7, 3) && Base(BOUND, OPENED, Linked(), 7, 3) == Ok([W])
  {
    Names();
    BoundIsValid();
    PrintRoundTrip([S, T]);
  }

  lemma OpenedResolves(a: Answers)
    requires a.path == Ok(UP_X) && a.proc == Linked()
    ensures ReadAndResolve(BOUND, OPENED, a.proc, 7, 3, a.path) == Ok([X])
  {
    OpenedBase();
    UpDiffers();
    WIsPrinted();
    JoinComposes(Print([W]), UP_X);
  }

  lemma WIsPrinted()
    ensures Normalize(Print([W])) == [W]
  {
    Names();
    PrintRoundTrip([W]);
  }

  lemma OpenedIsContinued(n: Notification, a: Answers)
    requires n == Notification(7, Open(3, false, false, None)) && a.path == Ok(UP_X) && a.proc == Linked()
    ensures Target(BOUND, OPENED, n, a) == Some([X]) && Step(BOUND, OPENED, n, a).effects == [Terminal(Continue)]
  {
    BoundIsValid();
    OpenedResolves(a);
    UnprojectedPassesThrough(BOUND, OPENED, n, a, [X]);
  }

  /** Through it `openat(3, "../x")` is meant for `/x` and reaches `/s/x` too. */
  lemma ContinuedOpenatReachesElsewhere()
    ensures var n, a := Notification(7, Open(3, false, false, None)), Saying(UP_X, true, []).(proc := Linked());
            && Tracked(BOUND, OPENED, a.proc, 7, 3)
            && Target(BOUND, OPENED, n, a) == Some([X])
            && Step(BOUND, OPENED, n, a).effects == [Terminal(Continue)]
            && Resolve(BOUND, [X]) == [X] && Lexical([S, T], UP_X) == [S, X]
  {
    BoundIsValid();
    OpenedBase();
    OpenedIsContinued(Notification(7, Open(3, false, false, None)), Saying(UP_X, true, []).(proc := Linked()));
    UpDiffers();
  }

  // ----- Changes of the host tree -----

  const SOURCE_ONLY: H.Tree := map[[] := H.Dir, [S] := H.Dir, [S, T] := H.Dir]

  lemma BelowBound(p: Path)
    requires p == [W, X]
    ensures ProjectionIndex(BOUND, p) == Some(0) && Resolve(BOUND, p) == [S, T, X] && M.Seen(BOUND, p)
  {
    Names();
    BoundIsValid();
    assert p[1..] == [X] && [S, T] + [X] == [S, T, X] && [W] <= p;
  }

  lemma SourceOnlyHost()
    ensures H.Walk(H.Host(SOURCE_ONLY), [], [S, T, X]).None? && H.Look(SOURCE_ONLY, [S, T, X]).None?
  {
    var p: Path := [S, T, X];
    assert p[1..] == [T, X] && p[1..][1..] == [X] && p[1..][1..][1..] == [];
    assert [] + [S] == [S] && [S] + [T] == [S, T] && [S, T] + [X] == [S, T, X];
    assert H.Walk(H.Host(SOURCE_ONLY), [S, T], [X]).None?;
    assert H.Walk(H.Host(SOURCE_ONLY), [S], [T, X]).None?;
  }

  /** The kernel makes `/s/t/x`, outside every bind, and the guest sees `/w/x` appear. */
  lemma ContinuedMkdirIsSeen()
    ensures var n, a := Notification(7, OnPath(Mkdir, AT_FDCWD)), Saying(Print([S, T, X]), true, []);
            && Step(BOUND, IN_BIND, n, a) == Outcome(IN_BIND, [Terminal(Continue)])
            && HC.Changed(BOUND, IN_BIND, n, a) == HC.At([S, T, X], H.Mkdir)
            && !V.UnseenChange(BOUND, HC.At([S, T, X], H.Mkdir))
            && H.GuestLook(BOUND, SOURCE_ONLY, [W, X]) == None
            && H.GuestLook(BOUND, V.After(SOURCE_ONLY, HC.At([S, T, X], H.Mkdir)), [W, X]) == Some(H.Dir)
  {
    var n, a := Notification(7, OnPath(Mkdir, AT_FDCWD)), Saying(Print([S, T, X]), true, []);
    var p: Path, w: Path := [S, T, X], [W];
    Names();
    PrintRoundTrip(p);
    assert W[0] != S[0];
    assert !(w <= p) && !Projects(BOUND, p);
    assert OnPathEffects(BOUND, IN_BIND, 7, Mkdir, AT_FDCWD, a) == [Terminal(Continue)];
    HC.SingleEffect(n, a, Terminal(Continue));
    BelowBound([W, X]);
    V.SeenAt(BOUND, [W, X]);
    SourceOnlyHost();
    H.HostAt(SOURCE_ONLY, p);
  }

  function Forwarded(p: Path): Answers {
    Saying(Print(p), false, []).(host := Ok(0))
  }

  lemma ForwardedTarget(a: Answers)
    requires a.path == Ok(Print([W, X]))
    ensures ReadAndResolve(BOUND, IN_BIND, a.proc, 7, AT_FDCWD, a.path) == Ok([W, X])
    ensures Projects(BOUND, [W, X]) && Resolve(BOUND, [W, X]) == [S, T, X] && !HasNul([S, T, X])
  {
    Names();
    BelowBound([W, X]);
    PrintRoundTrip([W, X]);
  }

  function NoDescriptorLeft(): Answers {
    Forwarded([W, X]).(inject := Err(EMFILE))
  }

  /** `open("/w/x", O_CREAT | O_EXCL)` fails with EMFILE when no descriptor is free, and leaves the file. */
  lemma CreateWithoutDescriptor()
    ensures var n, a := Notification(7, Open(AT_FDCWD, false, false, Some(true))), NoDescriptorLeft();
            && Step(BOUND, IN_BIND, n, a).effects == [HostCall([S, T, X]), Terminal(Error(EMFILE))]
            && V.After(SOURCE_ONLY, HC.Changed(BOUND, IN_BIND, n, a)) == SOURCE_ONLY[[S, T, X] := H.File([])]
            && H.GuestLook(BOUND, SOURCE_ONLY[[S, T, X] := H.File([])], [W, X]) == Some(H.File([]))
  {
    var n, a := Notification(7, Open(AT_FDCWD, false, false, Some(true))), NoDescriptorLeft();
    ForwardedTarget(a);
    OpenForwards(BOUND, IN_BIND, 7, AT_FDCWD, false, false, a, [W, X]);
    HC.CallThenReply(n, a, HostCall([S, T, X]), Error(EMFILE));
    SourceOnlyHost();
    H.HostAt(SOURCE_ONLY, [S, T, X]);
  }

  // ----- A refused exec -----

  /** `/w/x` is shorter than `/dev/fd/3`: the exec is refused, and descriptor 3 stays open. */
  lemma ShortExecLeavesDescriptor(original: Bytes)
    requires original == Print([W, X])
    ensures var n, a := Notification(7, Exec(AT_FDCWD, false)),
                        Forwarded([W, X]).(inject := Ok(3), rewrite := Some(ENAMETOOLONG));
            && Step(BOUND, IN_BIND, n, a).effects == [HostCall([S, T, X]), InjectFd(3), Terminal(Error(ENAMETOOLONG))]
            && E.HandedOver(BOUND, n, a, [W, X])
            && forall r: E.Routes ::
                 Remote.RewriteResult(original, Remote.ExecutableAlias(3), r.first, r.openError, r.second)
                 == Err(ENAMETOOLONG)
  {
    var n, a := Notification(7, Exec(AT_FDCWD, false)),
                Forwarded([W, X]).(inject := Ok(3), rewrite := Some(ENAMETOOLONG));
    ForwardedTarget(a);
    assert ExecEffects(BOUND, IN_BIND, 7, AT_FDCWD, false, a) == InjectEffects([S, T, X], a);
    assert |original| == 4 by {
      assert [W, X][1..] == [X] && [X][1..] == [];
      assert PrintNames([X]) == [SLASH] + X + [];
      assert PrintNames([W, X]) == [SLASH] + W + PrintNames([X]);
    }
    assert |Remote.ExecutableAlias(3)| == 9;
  }

  // ----- Argument order -----

  /** `/s` bound at `/a` and at `/b`: the bind given last names `/s` for the guest. */
  lemma LastArgumentNamesSource()
    ensures var p, q := Projection([S], [A]), Projection([S], [B]);
            VirtualForHost(SortByDepth([p, q]), [S]) == [B] && VirtualForHost(SortByDepth([q, p]), [S]) == [A]
  {
    var p, q := Projection([S], [A]), Projection([S], [B]);
    SharedSource(p, q);
    SharedSource(q, p);
  }

  lemma SharedSource(p: Projection, q: Projection)
    requires p.source == q.source && Depth(p) == Depth(q)
    ensures VirtualForHost(SortByDepth([p, q]), p.source) == q.destination
  {
    assert [p, q][1..] == [q] && [q][1..] == [];
    assert SortByDepth([q]) == [q];
    assert SortByDepth([p, q]) == [p, q];
    var d := DeepestSource([p, q], p.source).value;
    assert [p, q][1].source <= p.source && |[p, q][1].source| == |[p, q][d].source|;
    assert q.destination + p.source[|q.source|..] == q.destination;
  }
}
