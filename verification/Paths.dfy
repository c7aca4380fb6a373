/**
  Lexical paths, as bind.rs and linux/remote.rs use them.

  A pathname is a byte string; `Components` splits it as std::path does on Unix,
  and the two normalisers fold the components into a `Path`: the list of names
  below the root of an absolute path without `.` or `..`.
 */
module Paths {
  import opened Wrappers

  type byte = x: int | 0 <= x < 256
  type Bytes = seq<byte>

  /** An absolute normalised path: the names below `/`, outermost first. */
  type Path = seq<Bytes>

  const SLASH: byte := 47
  const PERIOD: Bytes := [46]
  const DOUBLE_PERIOD: Bytes := [46, 46]
  const DEV: Bytes := [100, 101, 118]
  const PROC: Bytes := [112, 114, 111, 99]
  const SYS: Bytes := [115, 121, 115]

  /** `Prefix` exists only on Windows; `Components` below never yields it. */
  datatype Component = Prefix | RootDir | CurDir | ParentDir | Normal(name: Bytes)

  ghost predicate NulFree(s: Bytes) {
    forall i :: 0 <= i < |s| ==> s[i] != 0
  }

  ghost predicate SlashFree(s: Bytes) {
    forall i :: 0 <= i < |s| ==> s[i] != SLASH
  }

  ghost predicate IsName(s: Bytes) {
    s != [] && s != PERIOD && s != DOUBLE_PERIOD && SlashFree(s) && NulFree(s)
  }

  ghost predicate NormalPath(p: Path) {
    forall i :: 0 <= i < |p| ==> IsName(p[i])
  }

  predicate IsAbsolute(s: Bytes) {
    s != [] && s[0] == SLASH
  }

  function Parent(p: Path): Path
    requires p != []
  {
    p[..|p| - 1]
  }

  /** The paths whose meaning is never changed by a bind. */
  predicate Reserved(p: Path) {
    [DEV] <= p || [PROC] <= p || [SYS] <= p
  }

  // ----- Splitting and printing -----

  /** Splits at every slash; an absolute pathname has an empty first piece. */
  function Pieces(s: Bytes): (r: seq<Bytes>)
    ensures |r| >= 1
  {
    if s == [] then [[]]
    else
      var rest := Pieces(s[1..]);
      if s[0] == SLASH then [[]] + rest else [[s[0]] + rest[0]] + rest[1..]
  }

  function PieceComponents(ps: seq<Bytes>): seq<Component> {
    if ps == [] then []
    else
      (if ps[0] == [] || ps[0] == PERIOD then []
       else if ps[0] == DOUBLE_PERIOD then [ParentDir]
       else [Normal(ps[0])]) + PieceComponents(ps[1..])
  }

  function Components(s: Bytes): seq<Component> {
    if IsAbsolute(s) then [RootDir] + PieceComponents(Pieces(s))
    else if Pieces(s)[0] == PERIOD then [CurDir] + PieceComponents(Pieces(s))
    else PieceComponents(Pieces(s))
  }

  function PrintNames(p: Path): Bytes {
    if p == [] then [] else [SLASH] + p[0] + PrintNames(p[1..])
  }

  function Print(p: Path): Bytes {
    if p == [] then [SLASH] else PrintNames(p)
  }

  /** `Path::join`: an absolute right side replaces the left one. */
  function Join(base: Bytes, q: Bytes): Bytes {
    if IsAbsolute(q) then q
    else if base == [] || base[|base| - 1] == SLASH then base + q
    else base + [SLASH] + q
  }

  // ----- The normalisers -----

  function FoldComponent(acc: Path, c: Component): Path {
    match c
    case ParentDir => if acc == [] then [] else Parent(acc)
    case Normal(name) => acc + [name]
    case _ => acc
  }

  function Fold(acc: Path, cs: seq<Component>): Path
    decreases |cs|
  {
    if cs == [] then acc else Fold(FoldComponent(acc, cs[0]), cs[1..])
  }

  function Normalize(s: Bytes): Path {
    Fold([], Components(s))
  }

  lemma {:induction false} FoldSplit(acc: Path, a: seq<Component>, b: seq<Component>)
    ensures Fold(acc, a + b) == Fold(Fold(acc, a), b)
    decreases |a|
  {
    if a == [] {
      assert a + b == b;
    } else {
      assert (a + b)[0] == a[0] && (a + b)[1..] == a[1..] + b;
      FoldSplit(FoldComponent(acc, a[0]), a[1..], b);
    }
  }

  /** What bind.rs makes of components: a prefix is an error. */
  function FoldVirtual(cs: seq<Component>): Result<Path, ()> {
    if Prefix in cs then Err(()) else Ok(Fold([], cs))
  }

  method NormalizeVirtual(cs: seq<Component>) returns (r: Result<Path, ()>)
    ensures r == FoldVirtual(cs)
  {
    var out: Path := [];
    for i := 0 to |cs|
      invariant Prefix !in cs[..i]
      invariant out == Fold([], cs[..i])
    {
      assert cs[..i + 1] == cs[..i] + [cs[i]];
      FoldSplit([], cs[..i], [cs[i]]);
      match cs[i] {
        case RootDir =>
        case CurDir =>
        case ParentDir => if out != [] { out := Parent(out); }
        case Normal(part) => out := out + [part];
        case Prefix => return Err(());
      }
    }
    assert cs[..|cs|] == cs;
    return Ok(out);
  }

  /** The loop of remote.rs: a prefix component is skipped. */
  method NormalizeRemote(cs: seq<Component>) returns (out: Path)
    ensures out == Fold([], cs)
  {
    out := [];
    for i := 0 to |cs|
      invariant out == Fold([], cs[..i])
    {
      assert cs[..i + 1] == cs[..i] + [cs[i]];
      FoldSplit([], cs[..i], [cs[i]]);
      match cs[i] {
        case RootDir =>
        case CurDir =>
        case ParentDir => if out != [] { out := Parent(out); }
        case Normal(part) => out := out + [part];
        case Prefix =>
      }
    }
    assert cs[..|cs|] == cs;
  }

  // ----- Laws -----

  lemma {:induction false} PiecesAreNames(ps: seq<Bytes>)
    requires forall i :: 0 <= i < |ps| ==> SlashFree(ps[i]) && NulFree(ps[i])
    ensures Prefix !in PieceComponents(ps)
    ensures forall c :: c in PieceComponents(ps) && c.Normal? ==> IsName(c.name)
  {
    if ps != [] {
      PiecesAreNames(ps[1..]);
    }
  }

  lemma {:induction false} PiecesClean(s: Bytes)
    ensures forall i :: 0 <= i < |Pieces(s)| ==> SlashFree(Pieces(s)[i])
    ensures NulFree(s) ==> forall i :: 0 <= i < |Pieces(s)| ==> NulFree(Pieces(s)[i])
  {
    if s != [] {
      PiecesClean(s[1..]);
    }
  }

  lemma {:induction false} FoldKeepsNormal(acc: Path, cs: seq<Component>)
    requires NormalPath(acc)
    requires forall c :: c in cs && c.Normal? ==> IsName(c.name)
    ensures NormalPath(Fold(acc, cs))
    decreases |cs|
  {
    if cs != [] {
      FoldKeepsNormal(FoldComponent(acc, cs[0]), cs[1..]);
    }
  }

  /** No `.`, `..`, empty name, slash or NUL survives, from any starting point. */
  lemma {:induction false} FoldIsNormal(acc: Path, s: Bytes)
    requires NormalPath(acc) && NulFree(s)
    ensures NormalPath(Fold(acc, Components(s)))
  {
    PiecesClean(s);
    PiecesAreNames(Pieces(s));
    FoldKeepsNormal(acc, Components(s));
  }

  lemma {:induction false} NoPrefix(ps: seq<Bytes>)
    ensures Prefix !in PieceComponents(ps)
  {
    if ps != [] {
      NoPrefix(ps[1..]);
    }
  }

  /** On every Unix pathname the prefix branches are dead, so the two loops agree. */
  lemma NormalisersAgree(s: Bytes)
    ensures FoldVirtual(Components(s)) == Ok(Normalize(s))
  {
    NoPrefix(Pieces(s));
  }

  lemma {:induction false} FoldPieces(acc: Path, s: Bytes)
    ensures Fold(acc, Components(s)) == Fold(acc, PieceComponents(Pieces(s)))
  {
    var cs := PieceComponents(Pieces(s));
    assert ([RootDir] + cs)[1..] == cs && ([CurDir] + cs)[1..] == cs;
  }

  lemma {:induction false} PiecesConcat(a: Bytes, b: Bytes)
    ensures Pieces(a + [SLASH] + b) == Pieces(a) + Pieces(b)
  {
    var w := a + [SLASH] + b;
    if a == [] {
      assert w[1..] == b;
    } else {
      assert w[0] == a[0] && w[1..] == a[1..] + [SLASH] + b;
      PiecesConcat(a[1..], b);
    }
  }

  lemma {:induction false} ComponentsConcat(a: seq<Bytes>, b: seq<Bytes>)
    ensures PieceComponents(a + b) == PieceComponents(a) + PieceComponents(b)
  {
    if a == [] {
      assert a + b == b;
    } else {
      assert (a + b)[0] == a[0] && (a + b)[1..] == a[1..] + b;
      ComponentsConcat(a[1..], b);
    }
  }

  /** Joining at a slash composes the folds. */
  lemma {:induction false} FoldConcat(acc: Path, a: Bytes, b: Bytes)
    ensures Fold(acc, Components(a + [SLASH] + b)) == Fold(Fold(acc, Components(a)), Components(b))
  {
    PiecesConcat(a, b);
    ComponentsConcat(Pieces(a), Pieces(b));
    FoldPieces(acc, a + [SLASH] + b);
    FoldPieces(acc, a);
    FoldPieces(Fold(acc, Components(a)), b);
    FoldSplit(acc, PieceComponents(Pieces(a)), PieceComponents(Pieces(b)));
  }

  /** Normalising a joined path continues the fold from the normalised base. */
  lemma JoinComposes(base: Bytes, q: Bytes)
    ensures Normalize(Join(base, q)) ==
            if IsAbsolute(q) then Normalize(q) else Fold(Normalize(base), Components(q))
  {
    if !IsAbsolute(q) {
      if base == [] {
        assert base + q == q;
        assert Pieces(base) == [[]];
        FoldPieces([], base);
      } else if base[|base| - 1] == SLASH {
        var a := base[..|base| - 1];
        assert base + q == a + [SLASH] + q && base == a + [SLASH] + [];
        FoldConcat([], a, q);
        FoldConcat([], a, []);
        FoldPieces(Normalize(a), []);
        assert Pieces([]) == [[]];
      } else {
        FoldConcat([], base, q);
      }
    }
  }

  lemma {:induction false} PiecesOfName(s: Bytes)
    requires SlashFree(s)
    ensures Pieces(s) == [s]
  {
    if s != [] {
      PiecesOfName(s[1..]);
      assert [s[0]] + s[1..] == s;
    }
  }

  lemma {:induction false} FoldEmpty(acc: Path)
    ensures Fold(acc, Components([])) == acc
  {
    assert Pieces([]) == [[]];
    FoldPieces(acc, []);
  }

  /** A leading slash adds nothing to a relative tail. */
  lemma {:induction false} FoldSlash(acc: Path, tail: Bytes)
    ensures Fold(acc, Components([SLASH] + tail)) == Fold(acc, Components(tail))
  {
    assert [] + [SLASH] + tail == [SLASH] + tail;
    FoldConcat(acc, [], tail);
    FoldEmpty(acc);
  }

  lemma {:induction false} FoldNames(acc: Path, p: Path)
    requires NormalPath(p)
    ensures Fold(acc, Components(PrintNames(p))) == acc + p
    decreases |p|
  {
    if p == [] {
      FoldEmpty(acc);
    } else {
      var name, rest := p[0], PrintNames(p[1..]);
      FoldNames(acc + [name], p[1..]);
      assert PrintNames(p) == [SLASH] + (name + rest);
      FoldSlash(acc, name + rest);
      FoldName(acc, name, rest);
      assert acc + p == acc + [name] + p[1..];
    }
  }

  /** One name in front of nothing, or of a tail that starts with a slash. */
  lemma {:induction false} FoldName(acc: Path, name: Bytes, rest: Bytes)
    requires IsName(name)
    requires rest == [] || rest[0] == SLASH
    ensures Fold(acc, Components(name + rest)) == Fold(acc + [name], Components(rest))
  {
    FoldNameOnly(acc, name);
    if rest == [] {
      assert name + rest == name;
      FoldEmpty(acc + [name]);
    } else {
      var tail := rest[1..];
      assert name + rest == name + [SLASH] + tail && rest == [SLASH] + tail;
      FoldConcat(acc, name, tail);
      FoldSlash(acc + [name], tail);
    }
  }

  /** `.` and a repeated slash mean nothing. */
  lemma {:induction false} DotMeansNothing(acc: Path, a: Bytes, b: Bytes)
    ensures Fold(acc, Components(a + [SLASH] + (PERIOD + [SLASH] + b))) == Fold(acc, Components(a + [SLASH] + b))
    ensures Fold(acc, Components(a + [SLASH] + ([SLASH] + b))) == Fold(acc, Components(a + [SLASH] + b))
  {
    var mid := Fold(acc, Components(a));
    FoldConcat(acc, a, b);
    FoldConcat(acc, a, PERIOD + [SLASH] + b);
    FoldConcat(mid, PERIOD, b);
    PiecesOfName(PERIOD);
    assert PieceComponents([PERIOD]) == PieceComponents([]);
    FoldPieces(mid, PERIOD);
    FoldConcat(acc, a, [SLASH] + b);
    FoldSlash(mid, b);
  }

  /** A name followed by `..` cancels, wherever it stands. */
  lemma {:induction false} ParentCancels(acc: Path, a: Bytes, name: Bytes, b: Bytes)
    requires IsName(name)
    ensures Fold(acc, Components(a + [SLASH] + (name + [SLASH] + (DOUBLE_PERIOD + [SLASH] + b))))
            == Fold(acc, Components(a + [SLASH] + b))
  {
    var mid := Fold(acc, Components(a));
    var back := DOUBLE_PERIOD + [SLASH] + b;
    FoldConcat(acc, a, b);
    FoldConcat(acc, a, name + [SLASH] + back);
    FoldConcat(mid, name, back);
    FoldNameOnly(mid, name);
    FoldConcat(mid + [name], DOUBLE_PERIOD, b);
    PiecesOfName(DOUBLE_PERIOD);
    assert PieceComponents([DOUBLE_PERIOD]) == [ParentDir] + PieceComponents([]);
    FoldPieces(mid + [name], DOUBLE_PERIOD);
    assert Parent(mid + [name]) == mid;
    assert Fold(mid + [name], [ParentDir]) == mid;
  }

  lemma {:induction false} FoldNameOnly(acc: Path, name: Bytes)
    requires IsName(name)
    ensures Fold(acc, Components(name)) == acc + [name]
  {
    PiecesOfName(name);
    assert PieceComponents([name]) == [Normal(name)] + PieceComponents([]);
    FoldPieces(acc, name);
    assert Fold(acc, [Normal(name)]) == acc + [name];
  }

  /** Printing a normalised path and reading it again is the identity. */
  lemma PrintRoundTrip(p: Path)
    requires NormalPath(p)
    ensures Normalize(Print(p)) == p
    ensures IsAbsolute(Print(p))
  {
    if p == [] {
      assert Print(p) == [SLASH] + [];
      FoldSlash([], []);
      FoldEmpty([]);
    } else {
      FoldNames([], p);
      assert [] + p == p;
    }
  }

  lemma NormalizeIdempotent(s: Bytes)
    requires NulFree(s)
    ensures Normalize(Print(Normalize(s))) == Normalize(s)
  {
    FoldIsNormal([], s);
    PrintRoundTrip(Normalize(s));
  }

  /** Any number of `..` at the root stays at the root. */
  lemma {:induction false} ParentOfRootIsRoot(n: nat, cs: seq<Component>)
    ensures Fold([], seq(n, i => ParentDir) + cs) == Fold([], cs)
  {
    var ups := seq(n, i => ParentDir);
    if n == 0 {
      assert ups + cs == cs;
    } else {
      var fewer := seq(n - 1, i => ParentDir);
      assert (ups + cs)[0] == ParentDir && (ups + cs)[1..] == fewer + cs;
      ParentOfRootIsRoot(n - 1, cs);
    }
  }

  // ----- How much of its base a pathname keeps -----

  /** A relative pathname climbs `climb` levels above its base and then descends into `rest`. */
  datatype Reduced = Reduced(climb: nat, rest: Path)

  function ReduceComponent(r: Reduced, c: Component): Reduced {
    match c
    case ParentDir => if r.rest == [] then Reduced(r.climb + 1, []) else Reduced(r.climb, Parent(r.rest))
    case Normal(name) => Reduced(r.climb, r.rest + [name])
    case _ => r
  }

  function Reduce(r: Reduced, cs: seq<Component>): Reduced
    decreases |cs|
  {
    if cs == [] then r else Reduce(ReduceComponent(r, cs[0]), cs[1..])
  }

  /** `p` without its last `n` names; the root is its own parent. */
  function Above(p: Path, n: nat): Path {
    if n <= |p| then p[..|p| - n] else []
  }

  function Climb(s: Bytes): nat {
    Reduce(Reduced(0, []), Components(s)).climb
  }

  lemma ReduceStep(base: Path, r: Reduced, c: Component)
    ensures var q := ReduceComponent(r, c);
            FoldComponent(Above(base, r.climb) + r.rest, c) == Above(base, q.climb) + q.rest
  {
    var up := Above(base, r.climb);
    match c {
      case ParentDir =>
        if r.rest == [] {
          assert up + [] == up;
        } else {
          assert Parent(up + r.rest) == up + Parent(r.rest);
        }
      case Normal(name) => assert up + r.rest + [name] == up + (r.rest + [name]);
      case _ =>
    }
  }

  lemma {:induction false} FoldReduces(base: Path, r: Reduced, cs: seq<Component>)
    ensures var q := Reduce(r, cs);
            Fold(Above(base, r.climb) + r.rest, cs) == Above(base, q.climb) + q.rest
    decreases |cs|
  {
    if cs != [] {
      ReduceStep(base, r, cs[0]);
      FoldReduces(base, ReduceComponent(r, cs[0]), cs[1..]);
    }
  }

  /** A relative pathname names the same path from two bases exactly when they agree above the levels it climbs. */
  lemma {:induction false} SameFromBoth(a: Path, b: Path, s: Bytes)
    ensures Fold(a, Components(s)) == Fold(b, Components(s)) <==> Above(a, Climb(s)) == Above(b, Climb(s))
  {
    var q := Reduce(Reduced(0, []), Components(s));
    FoldReduces(a, Reduced(0, []), Components(s));
    FoldReduces(b, Reduced(0, []), Components(s));
    assert Above(a, 0) + [] == a && Above(b, 0) + [] == b;
    SameHead(Above(a, q.climb), Above(b, q.climb), q.rest);
  }

  lemma SameHead(a: Path, b: Path, tail: Path)
    ensures a + tail == b + tail <==> a == b
  {
    if a + tail == b + tail {
      assert a == (a + tail)[..|a|] && b == (b + tail)[..|b|];
    }
  }

  /** The path a pathname names for a process in `cwd`. */
  function Lexical(cwd: Path, path: Bytes): Path {
    if IsAbsolute(path) then Normalize(path) else Fold(cwd, Components(path))
  }

  /** Where a pathname goes after climbing. */
  function Descent(s: Bytes): Path {
    Reduce(Reduced(0, []), Components(s)).rest
  }

  /** A relative pathname climbs first and then descends. */
  lemma {:induction false} LexicalReduces(base: Path, path: Bytes)
    requires !IsAbsolute(path)
    ensures Lexical(base, path) == Above(base, Climb(path)) + Descent(path)
  {
    FoldReduces(base, Reduced(0, []), Components(path));
    assert Above(base, 0) + [] == base;
  }

  lemma LexicalFromBoth(a: Path, b: Path, path: Bytes)
    ensures Lexical(a, path) == Lexical(b, path) <==> IsAbsolute(path) || Above(a, Climb(path)) == Above(b, Climb(path))
  {
    SameFromBoth(a, b, path);
  }

  /** Reserved paths are closed under extension, and a prefix of an unreserved path that is not `/` is unreserved. */
  lemma ReservedBelow(p: Path, q: Path)
    ensures p != [] ==> (Reserved(p + q) <==> Reserved(p))
  {
    if p != [] {
      assert (p + q)[0] == p[0];
      assert forall r: Bytes :: [r] <= p + q <==> p[0] == r;
      assert forall r: Bytes :: [r] <= p <==> p[0] == r;
    }
  }
}
