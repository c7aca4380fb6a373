/**
  The seccomp filter of linux/seccomp.rs, run by a BPF interpreter, and the routing of
  linux/dispatch.rs. Syscall numbers are a table, so both architectures are covered.
 */
module Filter {
  import opened Wrappers

  const USER_NOTIF := 0x7fc0_0000
  const ALLOW := 0x7fff_0000

  const LD_W_ABS := 0x20
  const JMP_JEQ_K := 0x15
  const RET_K := 0x06

  datatype Instruction = Instruction(code: nat, jt: nat, jf: nat, k: nat)

  function Stmt(code: nat, k: nat): Instruction {
    Instruction(code, 0, 0, k)
  }

  function Jump(code: nat, k: nat, jt: nat, jf: nat): Instruction {
    Instruction(code, jt, jf, k)
  }

  function AsU32(n: int): nat {
    n % 0x1_0000_0000
  }

  // ----- Building the filter -----

  function Tests(syscalls: seq<int>): (r: seq<Instruction>)
    ensures |r| == 2 * |syscalls|
  {
    if syscalls == [] then []
    else [Jump(JMP_JEQ_K, AsU32(syscalls[0]), 0, 1), Stmt(RET_K, USER_NOTIF)] + Tests(syscalls[1..])
  }

  function Program(syscalls: seq<int>): seq<Instruction> {
    [Stmt(LD_W_ABS, 0)] + Tests(syscalls) + [Stmt(RET_K, ALLOW)]
  }

  lemma {:induction false} TestsSnoc(syscalls: seq<int>, s: int)
    ensures Tests(syscalls + [s]) ==
            Tests(syscalls) + [Jump(JMP_JEQ_K, AsU32(s), 0, 1), Stmt(RET_K, USER_NOTIF)]
  {
    if syscalls == [] {
      assert (syscalls + [s])[1..] == [];
    } else {
      assert (syscalls + [s])[0] == syscalls[0] && (syscalls + [s])[1..] == syscalls[1..] + [s];
      TestsSnoc(syscalls[1..], s);
    }
  }

  method BuildFilter(syscalls: seq<int>) returns (filter: seq<Instruction>)
    ensures filter == Program(syscalls)
    ensures |filter| == 2 * |syscalls| + 2
  {
    filter := [Stmt(LD_W_ABS, 0)];
    for i := 0 to |syscalls|
      invariant filter == [Stmt(LD_W_ABS, 0)] + Tests(syscalls[..i])
    {
      assert syscalls[..i + 1] == syscalls[..i] + [syscalls[i]];
      TestsSnoc(syscalls[..i], syscalls[i]);
      filter := filter + [Jump(JMP_JEQ_K, AsU32(syscalls[i]), 0, 1)];
      filter := filter + [Stmt(RET_K, USER_NOTIF)];
    }
    assert syscalls[..|syscalls|] == syscalls;
    filter := filter + [Stmt(RET_K, ALLOW)];
  }

  // ----- Running it -----

  /** Runs from `pc`; `None` for an unknown instruction or a jump out of the program. */
  function Interpret(p: seq<Instruction>, pc: nat, acc: nat, nr: nat): Option<nat>
    decreases |p| - pc
  {
    if pc >= |p| then None
    else if p[pc].code == LD_W_ABS && p[pc].k == 0 then Interpret(p, pc + 1, nr, nr)
    else if p[pc].code == JMP_JEQ_K then
      Interpret(p, pc + 1 + (if acc == p[pc].k then p[pc].jt else p[pc].jf), acc, nr)
    else if p[pc].code == RET_K then Some(p[pc].k)
    else None
  }

  ghost predicate Numbers(syscalls: seq<int>) {
    forall i :: 0 <= i < |syscalls| ==> 0 <= syscalls[i] < 0x8000_0000
  }

  lemma {:induction false} TestsAppend(a: seq<int>, b: seq<int>)
    ensures Tests(a + b) == Tests(a) + Tests(b)
  {
    if a == [] {
      assert a + b == b;
    } else {
      assert (a + b)[0] == a[0] && (a + b)[1..] == a[1..] + b;
      TestsAppend(a[1..], b);
    }
  }

  /** The instructions for the number after `before`. */
  lemma ProgramAt(before: seq<int>, after: seq<int>)
    ensures var p, pc := Program(before + after), 1 + 2 * |before|;
            && pc < |p|
            && (after == [] ==> p[pc] == Stmt(RET_K, ALLOW))
            && (after != [] ==> pc + 1 < |p| && p[pc] == Jump(JMP_JEQ_K, AsU32(after[0]), 0, 1)
                                && p[pc + 1] == Stmt(RET_K, USER_NOTIF))
  {
    TestsAppend(before, after);
  }

  lemma {:induction false} InterpretTests(syscalls: seq<int>, before: seq<int>, after: seq<int>, nr: nat)
    requires syscalls == before + after && Numbers(syscalls)
    ensures Interpret(Program(syscalls), 1 + 2 * |before|, nr, nr) == Some(if nr in after then USER_NOTIF else ALLOW)
    decreases |after|
  {
    ProgramAt(before, after);
    if after != [] {
      assert after[0] == syscalls[|before|];
      assert syscalls == (before + [after[0]]) + after[1..];
      InterpretTests(syscalls, before + [after[0]], after[1..], nr);
    }
  }

  /** The program always returns, and asks for a notification exactly for the listed numbers. */
  lemma {:induction false} FilterIsExact(syscalls: seq<int>, nr: nat)
    requires Numbers(syscalls)
    ensures Interpret(Program(syscalls), 0, 0, nr) == Some(if nr in syscalls then USER_NOTIF else ALLOW)
  {
    assert syscalls == [] + syscalls;
    InterpretTests(syscalls, [], syscalls, nr);
    assert Program(syscalls)[0] == Stmt(LD_W_ABS, 0);
  }

  // ----- The repository's list -----

  datatype Syscall =
    | Execve | Execveat | Open | Openat | Openat2 | Newfstatat | Statx
    | Access | Faccessat | Faccessat2 | Mkdir | Mkdirat | Unlink | Unlinkat | Rmdir
    | Rename | Renameat | Renameat2 | Readlink | Readlinkat | Symlink | Symlinkat
    | Getdents64 | Chdir | Fchdir | Getcwd | Truncate | Chmod | Fchmodat
    | Chown | Lchown | Fchownat | Utimensat

  datatype Handler =
    | OnExec | OnOpen | OnStat | OnStatx | OnAccess | OnMkdir | OnUnlink | OnRename | OnReadlink | OnSymlink
    | OnGetdents | OnChdir | OnGetcwd | OnTruncate | OnChmod | OnChown | OnUtimensat | Fallback

  const INTERCEPTED: seq<Syscall> := [
    Execve, Execveat, Open, Openat, Openat2, Newfstatat, Statx, Access, Faccessat, Faccessat2,
    Mkdir, Mkdirat, Unlink, Unlinkat, Rmdir, Rename, Renameat, Renameat2, Readlink, Readlinkat,
    Symlink, Symlinkat, Getdents64, Chdir, Fchdir, Getcwd, Truncate, Chmod, Fchmodat, Chown,
    Lchown, Fchownat, Utimensat]

  /** Path-only entry points, absent (-1) except on x86_64. */
  predicate Legacy(s: Syscall) {
    s.Open? || s.Access? || s.Mkdir? || s.Unlink? || s.Rmdir? || s.Rename? || s.Readlink? || s.Symlink?
    || s.Chmod? || s.Chown? || s.Lchown?
  }

  ghost predicate Table(number: Syscall -> int) {
    forall s :: number(s) < 0x8000_0000 && (number(s) >= 0 || (Legacy(s) && number(s) == -1))
  }

  function Present(number: Syscall -> int, names: seq<Syscall>): seq<int> {
    if names == [] then []
    else (if number(names[0]) >= 0 then [number(names[0])] else []) + Present(number, names[1..])
  }

  function InterceptedSyscalls(number: Syscall -> int): seq<int> {
    Present(number, INTERCEPTED)
  }

  function Route(number: Syscall -> int, nr: int): Handler {
    if nr == number(Execve) || nr == number(Execveat) then OnExec
    else if nr == number(Open) || nr == number(Openat) || nr == number(Openat2) then OnOpen
    else if nr == number(Newfstatat) then OnStat
    else if nr == number(Statx) then OnStatx
    else if nr == number(Access) || nr == number(Faccessat) || nr == number(Faccessat2) then OnAccess
    else if nr == number(Mkdir) || nr == number(Mkdirat) then OnMkdir
    else if nr == number(Unlink) || nr == number(Unlinkat) || nr == number(Rmdir) then OnUnlink
    else if nr == number(Rename) || nr == number(Renameat) || nr == number(Renameat2) then OnRename
    else RouteRest(number, nr)
  }

  /** The tests after rename. */
  function RouteRest(number: Syscall -> int, nr: int): Handler {
    if nr == number(Readlink) || nr == number(Readlinkat) then OnReadlink
    else if nr == number(Symlink) || nr == number(Symlinkat) then OnSymlink
    else if nr == number(Getdents64) then OnGetdents
    else if nr == number(Chdir) || nr == number(Fchdir) then OnChdir
    else if nr == number(Getcwd) then OnGetcwd
    else if nr == number(Truncate) then OnTruncate
    else if nr == number(Chmod) || nr == number(Fchmodat) then OnChmod
    else if nr == number(Chown) || nr == number(Lchown) || nr == number(Fchownat) then OnChown
    else if nr == number(Utimensat) then OnUtimensat
    else Fallback
  }

  lemma {:induction false} PresentMembers(number: Syscall -> int, names: seq<Syscall>, nr: int)
    ensures |Present(number, names)| <= |names|
    ensures nr in Present(number, names) <==> nr >= 0 && exists i :: 0 <= i < |names| && number(names[i]) == nr
  {
    if names != [] {
      PresentMembers(number, names[1..], nr);
      assert forall i :: 0 <= i < |names| - 1 ==> names[1..][i] == names[i + 1];
      if i :| 0 <= i < |names| && number(names[i]) == nr {
        assert i > 0 ==> number(names[1..][i - 1]) == nr;
      }
    }
  }

  lemma EveryNameIsListed(s: Syscall)
    ensures exists i :: 0 <= i < |INTERCEPTED| && INTERCEPTED[i] == s
  {
    var i := match s
      case Execve => 0 case Execveat => 1 case Open => 2 case Openat => 3 case Openat2 => 4 case Newfstatat => 5
      case Statx => 6 case Access => 7 case Faccessat => 8 case Faccessat2 => 9 case Mkdir => 10 case Mkdirat => 11
      case Unlink => 12 case Unlinkat => 13 case Rmdir => 14 case Rename => 15 case Renameat => 16 case Renameat2 => 17
      case Readlink => 18 case Readlinkat => 19 case Symlink => 20 case Symlinkat => 21 case Getdents64 => 22
      case Chdir => 23 case Fchdir => 24 case Getcwd => 25 case Truncate => 26 case Chmod => 27 case Fchmodat => 28
      case Chown => 29 case Lchown => 30 case Fchownat => 31 case Utimensat => 32;
    assert INTERCEPTED[i] == s;
  }

  lemma NamedIsRouted(number: Syscall -> int, s: Syscall)
    ensures Route(number, number(s)) != Fallback
  {
    match s
    case Execve => case Execveat => case Open => case Openat => case Openat2 => case Newfstatat => case Statx =>
    case Access => case Faccessat => case Faccessat2 => case Mkdir => case Mkdirat => case Unlink => case Unlinkat =>
    case Rmdir => case Rename => case Renameat => case Renameat2 => case Readlink => case Readlinkat => case Symlink =>
    case Symlinkat => case Getdents64 => case Chdir => case Fchdir => case Getcwd => case Truncate => case Chmod =>
    case Fchmodat => case Chown => case Lchown => case Fchownat => case Utimensat =>
  }

  lemma RoutedHasName(number: Syscall -> int, nr: int)
    ensures Route(number, nr) != Fallback <==> exists s :: number(s) == nr
  {
    if s :| number(s) == nr {
      NamedIsRouted(number, s);
    }
  }

  /** A list naming every syscall keeps exactly the numbers some syscall has. */
  lemma {:induction false} CompleteListMembers(number: Syscall -> int, names: seq<Syscall>, nr: int)
    requires forall s: Syscall :: s in names
    ensures nr in Present(number, names) <==> nr >= 0 && exists s :: number(s) == nr
  {
    PresentMembers(number, names, nr);
    if s :| number(s) == nr {
      assert s in names;
    }
  }

  lemma ListedExactly(number: Syscall -> int, nr: int)
    ensures nr in InterceptedSyscalls(number) <==> nr >= 0 && exists s :: number(s) == nr
  {
    forall s: Syscall ensures s in INTERCEPTED {
      EveryNameIsListed(s);
    }
    CompleteListMembers(number, INTERCEPTED, nr);
  }

  /** On either architecture a call is notified exactly when a named handler takes it. */
  lemma {:induction false} NotifiedExactlyWhenRouted(number: Syscall -> int, nr: nat)
    requires Table(number)
    ensures Interpret(Program(InterceptedSyscalls(number)), 0, 0, nr) ==
            Some(if Route(number, nr) != Fallback then USER_NOTIF else ALLOW)
    ensures |Program(InterceptedSyscalls(number))| <= 2 * |INTERCEPTED| + 2
  {
    var list := InterceptedSyscalls(number);
    PresentMembers(number, INTERCEPTED, nr);
    forall i | 0 <= i < |list| ensures 0 <= list[i] < 0x8000_0000 {
      ListedExactly(number, list[i]);
      assert list[i] in list;
    }
    FilterIsExact(list, nr);
    RoutedHasName(number, nr);
    ListedExactly(number, nr);
  }

  /** The handler meant for a syscall. */
  function HandlerOf(s: Syscall): Handler {
    match s
    case Execve => OnExec case Execveat => OnExec
    case Open => OnOpen case Openat => OnOpen case Openat2 => OnOpen
    case Newfstatat => OnStat
    case Statx => OnStatx
    case Access => OnAccess case Faccessat => OnAccess case Faccessat2 => OnAccess
    case Mkdir => OnMkdir case Mkdirat => OnMkdir
    case Unlink => OnUnlink case Unlinkat => OnUnlink case Rmdir => OnUnlink
    case Rename => OnRename case Renameat => OnRename case Renameat2 => OnRename
    case Readlink => OnReadlink case Readlinkat => OnReadlink
    case Symlink => OnSymlink case Symlinkat => OnSymlink
    case Getdents64 => OnGetdents
    case Chdir => OnChdir case Fchdir => OnChdir
    case Getcwd => OnGetcwd
    case Truncate => OnTruncate
    case Chmod => OnChmod case Fchmodat => OnChmod
    case Chown => OnChown case Lchown => OnChown case Fchownat => OnChown
    case Utimensat => OnUtimensat
  }

  /** Compared in the first half of the chain. */
  predicate RoutedFirst(s: Syscall) {
    s.Execve? || s.Execveat? || s.Open? || s.Openat? || s.Openat2? || s.Newfstatat? || s.Statx? || s.Access?
        || s.Faccessat?
    || s.Faccessat2? || s.Mkdir? || s.Mkdirat? || s.Unlink? || s.Unlinkat? || s.Rmdir? || s.Rename? || s.Renameat?
        || s.Renameat2?
  }

  lemma FirstRoutes(number: Syscall -> int, s: Syscall)
    requires RoutedFirst(s) && forall t :: number(t) == number(s) ==> t == s
    ensures Route(number, number(s)) == HandlerOf(s)
  {
    match s
    case Execve => case Execveat => case Open => case Openat => case Openat2 => case Newfstatat => case Statx =>
    case Access => case Faccessat => case Faccessat2 => case Mkdir => case Mkdirat => case Unlink => case Unlinkat =>
    case Rmdir => case Rename => case Renameat => case Renameat2 =>
    case _ =>
  }

  lemma FirstTestsPass(number: Syscall -> int, s: Syscall)
    requires !RoutedFirst(s) && forall t :: number(t) == number(s) ==> t == s
    ensures Route(number, number(s)) == RouteRest(number, number(s))
  {
  }

  lemma LaterRoutes(number: Syscall -> int, s: Syscall)
    requires !RoutedFirst(s) && forall t :: number(t) == number(s) ==> t == s
    ensures RouteRest(number, number(s)) == HandlerOf(s)
  {
    match s
    case Readlink => case Readlinkat => case Symlink =>
    case Symlinkat => case Getdents64 => case Chdir => case Fchdir => case Getcwd => case Truncate => case Chmod =>
    case Fchmodat => case Chown => case Lchown => case Fchownat => case Utimensat =>
    case _ =>
  }

  /** A syscall that shares its number with no other reaches the handler meant for it. */
  lemma RouteReachesHandler(number: Syscall -> int, s: Syscall)
    requires forall t :: number(t) == number(s) ==> t == s
    ensures Route(number, number(s)) == HandlerOf(s)
  {
    if RoutedFirst(s) {
      FirstRoutes(number, s);
    } else {
      FirstTestsPass(number, s);
      LaterRoutes(number, s);
    }
  }
}
