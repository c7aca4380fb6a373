/**
  The whole guest tree after a rename: when the host rename of the two resolved ends shows the
  guest its own tree with the subtree moved, as a condition on the list of binds.
 */
module TreeMoves {
  import opened Wrappers
  import opened Paths
  import opened Bind
  import opened HostView

  /** The tree `look` with the subtree at `from` moved onto `to`. */
  function MovedLook(look: Path -> Option<Node>, from: Path, to: Path): Path -> Option<Node> {
    x => if to <= x then look(from + x[|to|..]) else if from <= x then None else look(x)
  }

  /** A path the view shows: normalised and below a destination. */
  ghost predicate Seen(v: View, x: Path) {
    NormalPath(x) && Projects(v, x)
  }

  /** When the host rename succeeds, the guest's tree is its old one with the subtree moved. */
  ghost predicate MovesGuestTree(v: View, t: Tree, from: Path, to: Path) {
    match HostRename(t, Resolve(v, from), Resolve(v, to))
    case Err(_) => true
    case Ok(after) => forall x :: Seen(v, x) ==> GuestLook(v, after, x) == MovedLook(Guest(v, t), from, to)(x)
  }

  ghost predicate AlwaysMovesGuestTree(v: View, from: Path, to: Path) {
    forall t: Tree :: MovesGuestTree(v, t, from, to)
  }

  /** `from ++ s` and `to ++ s` resolve to the same place below the two host ends. */
  predicate Corresponds(v: View, from: Path, to: Path, s: Path) {
    && Resolve(v, from) <= Resolve(v, from + s) && Resolve(v, to) <= Resolve(v, to + s)
    && Resolve(v, from + s)[|Resolve(v, from)|..] == Resolve(v, to + s)[|Resolve(v, to)|..]
  }

  /** A path outside both ends that resolves into one of them. */
  predicate Aliases(v: View, from: Path, to: Path, x: Path) {
    !(from <= x) && !(to <= x) && (Resolve(v, from) <= Resolve(v, x) || Resolve(v, to) <= Resolve(v, x))
  }

  ghost predicate EndsCorrespond(v: View, from: Path, to: Path) {
    && (forall s :: NormalPath(s) ==> Corresponds(v, from, to, s))
    && (forall x :: Seen(v, x) ==> !Aliases(v, from, to, x))
  }

  predicate Apart(a: Path, b: Path) {
    !(a <= b) && !(b <= a)
  }

  lemma ApartEnds(v: View, from: Path, to: Path)
    requires SameProjection(v, from, to) && Apart(Resolve(v, from), Resolve(v, to))
    ensures Apart(from, to)
  {
    var pr := v[ProjectionIndex(v, from).value];
    SharedPrefix(pr.source, from[|pr.destination|..], to[|pr.destination|..]);
  }

  lemma CorrespondingTarget(v: View, t: Tree, from: Path, to: Path, s: Path)
    requires Apart(Resolve(v, from), Resolve(v, to)) && Corresponds(v, from, to, s)
    ensures GuestLook(v, MoveTree(t, Resolve(v, from), Resolve(v, to)), to + s) == GuestLook(v, t, from + s)
  {
    var a, b := Resolve(v, from), Resolve(v, to);
    MoveLook(t, a, b, Resolve(v, to + s));
    assert a + Resolve(v, to + s)[|b|..] == Resolve(v, from + s);
  }

  lemma CorrespondingSource(v: View, t: Tree, from: Path, to: Path, s: Path)
    requires Apart(Resolve(v, from), Resolve(v, to)) && Corresponds(v, from, to, s)
    ensures GuestLook(v, MoveTree(t, Resolve(v, from), Resolve(v, to)), from + s) == None
  {
    MoveLook(t, Resolve(v, from), Resolve(v, to), Resolve(v, from + s));
  }

  lemma NormalTail(x: Path, n: nat)
    requires NormalPath(x) && n <= |x|
    ensures NormalPath(x[n..])
  {
  }

  lemma OutsideStays(v: View, t: Tree, from: Path, to: Path, x: Path)
    requires Apart(Resolve(v, from), Resolve(v, to)) && !(from <= x) && !(to <= x) && !Aliases(v, from, to, x)
    ensures GuestLook(v, MoveTree(t, Resolve(v, from), Resolve(v, to)), x) == GuestLook(v, t, x)
  {
    MoveLook(t, Resolve(v, from), Resolve(v, to), Resolve(v, x));
  }

  lemma MovesAt(v: View, t: Tree, from: Path, to: Path, x: Path)
    requires Apart(Resolve(v, from), Resolve(v, to)) && !Aliases(v, from, to, x)
    requires to <= x ==> Corresponds(v, from, to, x[|to|..])
    requires from <= x ==> Corresponds(v, from, to, x[|from|..])
    ensures GuestLook(v, MoveTree(t, Resolve(v, from), Resolve(v, to)), x) == MovedLook(Guest(v, t), from, to)(x)
  {
    if to <= x {
      CorrespondingTarget(v, t, from, to, x[|to|..]);
      assert x == to + x[|to|..];
    } else if from <= x {
      CorrespondingSource(v, t, from, to, x[|from|..]);
      assert x == from + x[|from|..];
    } else {
      OutsideStays(v, t, from, to, x);
    }
  }

  lemma CorrespondingMoves(v: View, t: Tree, from: Path, to: Path, x: Path)
    requires Apart(Resolve(v, from), Resolve(v, to)) && EndsCorrespond(v, from, to)
    requires Seen(v, x)
    ensures GuestLook(v, MoveTree(t, Resolve(v, from), Resolve(v, to)), x) == MovedLook(Guest(v, t), from, to)(x)
  {
    if to <= x {
      NormalTail(x, |to|);
    }
    if from <= x {
      NormalTail(x, |from|);
    }
    MovesAt(v, t, from, to, x);
  }

  /** The directories above both ends, the source of the rename, and one more node. */
  function Scene(a: Path, b: Path, y: Path, n: Node): Tree {
    (map i | 0 <= i < |a| :: a[..i] := Dir) + (map i | 0 <= i < |b| :: b[..i] := Dir) + map[a := Dir] + map[y := n]
  }

  lemma {:induction false} WalkDirectories(look: Path -> Option<Node>, root: Path, q: Path)
    requires forall i :: 0 <= i < |q| ==> look(root + q[..i]) == Some(Dir)
    ensures Walk(look, root, q).None?
    decreases |q|
  {
    if q != [] {
      assert root + q[..0] == root;
      forall i | 0 <= i < |q| - 1 ensures look(root + [q[0]] + q[1..][..i]) == Some(Dir) {
        assert root + [q[0]] + q[1..][..i] == root + q[..i + 1];
      }
      WalkDirectories(look, root + [q[0]], q[1..]);
    }
  }

  lemma SceneDirectories(a: Path, b: Path, y: Path, n: Node, i: nat)
    requires Apart(a, b) && (n == Dir || a <= y)
    ensures i < |a| ==> Look(Scene(a, b, y, n), a[..i]) == Some(Dir)
    ensures i < |b| ==> Look(Scene(a, b, y, n), b[..i]) == Some(Dir)
  {
    if i < |b| {
      PrefixOfPrefix(a, b, i);
    }
  }

  lemma PrefixOfPrefix(a: Path, b: Path, i: nat)
    requires i <= |b|
    ensures a <= b[..i] ==> a <= b
  {
    if a <= b[..i] {
      assert a == b[..i][..|a|] == b[..|a|];
    }
  }

  lemma {:induction false} SceneWalks(a: Path, b: Path, y: Path, n: Node)
    requires Apart(a, b) && (n == Dir || a <= y)
    ensures Walk(Host(Scene(a, b, y, n)), [], a).None? && Walk(Host(Scene(a, b, y, n)), [], b).None?
  {
    var look := Host(Scene(a, b, y, n));
    forall i | 0 <= i < |a| ensures look([] + a[..i]) == Some(Dir) {
      assert [] + a[..i] == a[..i];
      SceneDirectories(a, b, y, n, i);
    }
    WalkDirectories(look, [], a);
    forall i | 0 <= i < |b| ensures look([] + b[..i]) == Some(Dir) {
      assert [] + b[..i] == b[..i];
      SceneDirectories(a, b, y, n, i);
    }
    WalkDirectories(look, [], b);
  }

  lemma {:induction false} RenameOntoNothing(t: Tree, a: Path, b: Path)
    requires Walk(Host(t), [], a).None? && Walk(Host(t), [], b).None? && Apart(a, b)
    requires Look(t, a).Some? && Look(t, b).None?
    ensures HostRename(t, a, b) == Ok(MoveTree(t, a, b))
  {
    HostAt(t, a);
    HostAt(t, b);
  }

  lemma SceneRenames(a: Path, b: Path, y: Path, n: Node)
    requires Apart(a, b) && y != b && (n == Dir || a <= y)
    ensures HostRename(Scene(a, b, y, n), a, b) == Ok(MoveTree(Scene(a, b, y, n), a, b))
  {
    SceneWalks(a, b, y, n);
    SceneBelow(a, b, y, n, a);
    SceneBelow(a, b, y, n, b);
    RenameOntoNothing(Scene(a, b, y, n), a, b);
  }

  /** What a scene holds at and below its two ends. */
  lemma SceneBelow(a: Path, b: Path, y: Path, n: Node, x: Path)
    requires Apart(a, b) && (a <= x || b <= x)
    ensures Look(Scene(a, b, y, n), x) == if x == y then Some(n) else if x == a then Some(Dir) else None
  {
  }

  lemma SceneElsewhere(a: Path, b: Path, y: Path, n: Node, x: Path)
    requires x != y
    ensures Look(Scene(a, b, y, n), x) != Some(File([]))
  {
  }

  lemma Refuted(v: View, t: Tree, from: Path, to: Path, x: Path)
    requires HostRename(t, Resolve(v, from), Resolve(v, to)).Ok?
    requires GuestLook(v, HostRename(t, Resolve(v, from), Resolve(v, to)).value, x)
             != MovedLook(Guest(v, t), from, to)(x)
    requires Seen(v, x)
    ensures !AlwaysMovesGuestTree(v, from, to)
  {
    assert !MovesGuestTree(v, t, from, to);
  }

  /** A path below the source that resolves elsewhere stays visible after the rename. */
  lemma StrayBelowSource(v: View, from: Path, to: Path, s: Path)
    requires SameProjection(v, from, to) && Apart(Resolve(v, from), Resolve(v, to))
    requires !(Resolve(v, from) <= Resolve(v, from + s)) && Seen(v, from + s)
    ensures !AlwaysMovesGuestTree(v, from, to)
  {
    var a, b, y := Resolve(v, from), Resolve(v, to), Resolve(v, from + s);
    var z := if b <= y then a + y[|b|..] else y;
    var t := Scene(a, b, z, Dir);
    ApartEnds(v, from, to);
    SceneRenames(a, b, z, Dir);
    MoveLook(t, a, b, y);
    Incomparable(from, to, s);
    Refuted(v, t, from, to, from + s);
  }

  /** The marked node of a scene moves to one place only. */
  lemma MarkMovesOnce(a: Path, b: Path, y: Path, z: Path)
    requires Apart(a, b) && a <= y && !(b <= z && z[|b|..] == y[|a|..])
    ensures Look(MoveTree(Scene(a, b, y, File([])), a, b), z) != Some(File([]))
  {
    MoveLook(Scene(a, b, y, File([])), a, b, z);
    if b <= z {
      var w := a + z[|b|..];
      assert w[|a|..] == z[|b|..];
      SceneElsewhere(a, b, y, File([]), w);
    } else if !(a <= z) {
      SceneElsewhere(a, b, y, File([]), z);
    }
  }

  /** A path below the target that does not resolve where the moved one goes shows something else. */
  lemma StrayBelowTarget(v: View, from: Path, to: Path, s: Path)
    requires SameProjection(v, from, to) && Apart(Resolve(v, from), Resolve(v, to))
    requires Resolve(v, from) <= Resolve(v, from + s) && !Corresponds(v, from, to, s) && Seen(v, to + s)
    ensures !AlwaysMovesGuestTree(v, from, to)
  {
    var a, b, y, z := Resolve(v, from), Resolve(v, to), Resolve(v, from + s), Resolve(v, to + s);
    var t := Scene(a, b, y, File([]));
    SceneRenames(a, b, y, File([]));
    SceneBelow(a, b, y, File([]), y);
    MarkMovesOnce(a, b, y, z);
    assert (to + s)[|to|..] == s;
    assert MovedLook(Guest(v, t), from, to)(to + s) == GuestLook(v, t, from + s);
    Refuted(v, t, from, to, to + s);
  }

  /** An alias of either end shows the rename outside both. */
  lemma AliasShows(v: View, from: Path, to: Path, x: Path)
    requires SameProjection(v, from, to) && Apart(Resolve(v, from), Resolve(v, to)) && Aliases(v, from, to, x)
    requires Seen(v, x)
    ensures !AlwaysMovesGuestTree(v, from, to)
  {
    var a, b, y := Resolve(v, from), Resolve(v, to), Resolve(v, x);
    var z := if b <= y then a + y[|b|..] else y;
    var t := Scene(a, b, z, Dir);
    SceneRenames(a, b, z, Dir);
    MoveLook(t, a, b, y);
    SceneBelow(a, b, z, Dir, y);
    Refuted(v, t, from, to, x);
  }

  /** Below a projected path everything normalised is shown. */
  lemma SeenBelow(v: View, p: Path, s: Path)
    requires Ordered(v) && Seen(v, p) && NormalPath(s)
    ensures Seen(v, p + s)
  {
    var i := ProjectionIndex(v, p).value;
    ReservedBelow(p, s);
    assert v[i].destination <= p + s;
  }

  /** On the lookups: the tree moves exactly when both ends correspond and nothing else enters them. */
  lemma MovesExactlyWhenCorresponding(v: View, from: Path, to: Path)
    requires Ordered(v) && NormalPath(from) && NormalPath(to)
    requires SameProjection(v, from, to) && Apart(Resolve(v, from), Resolve(v, to))
    ensures AlwaysMovesGuestTree(v, from, to) <==> EndsCorrespond(v, from, to)
  {
    if EndsCorrespond(v, from, to) {
      forall t: Tree ensures MovesGuestTree(v, t, from, to) {
        if HostRename(t, Resolve(v, from), Resolve(v, to)).Ok? {
          RenameIncomparable(t, Resolve(v, from), Resolve(v, to));
          forall x | Seen(v, x) ensures GuestLook(v, MoveTree(t, Resolve(v, from), Resolve(v, to)), x)
                                        == MovedLook(Guest(v, t), from, to)(x) {
            CorrespondingMoves(v, t, from, to, x);
          }
        }
      }
    } else if s :| NormalPath(s) && !Corresponds(v, from, to, s) {
      SeenBelow(v, from, s);
      SeenBelow(v, to, s);
      if Resolve(v, from) <= Resolve(v, from + s) {
        StrayBelowTarget(v, from, to, s);
      } else {
        StrayBelowSource(v, from, to, s);
      }
    } else {
      var x :| Seen(v, x) && Aliases(v, from, to, x);
      AliasShows(v, from, to, x);
    }
  }

  // ----- The condition on the binds -----

  /** Every destination strictly below one end resolves like the same place below the other. */
  predicate NestedBindsMatch(v: View, from: Path, to: Path) {
    forall k :: 0 <= k < |v| ==>
      && (from < v[k].destination ==> Corresponds(v, from, to, v[k].destination[|from|..]))
      && (to < v[k].destination ==> Corresponds(v, from, to, v[k].destination[|to|..]))
  }

  /** The first guest path through which bind `k` enters host `e` is inside one of the ends. */
  ghost predicate EntersInside(v: View, k: nat, e: Path, from: Path, to: Path)
    requires k < |v|
  {
    && (e <= v[k].source ==> from <= v[k].destination || to <= v[k].destination)
    && (v[k].source <= e && !DestinationShadows(v, k, e[|v[k].source|..]) ==>
          || from <= v[k].destination + e[|v[k].source|..]
          || to <= v[k].destination + e[|v[k].source|..])
  }

  /** No bind leads into a host end from outside the guest ends. */
  ghost predicate NoBindEnters(v: View, from: Path, to: Path) {
    forall k :: 0 <= k < |v| ==>
      EntersInside(v, k, Resolve(v, from), from, to) && EntersInside(v, k, Resolve(v, to), from, to)
  }

  lemma ProjectsBelow(v: View, p: Path, s: Path)
    requires Ordered(v) && Projects(v, p)
    ensures Projects(v, p + s)
  {
    var i := ProjectionIndex(v, p).value;
    ReservedBelow(p, s);
    assert v[i].destination <= p + s;
  }

  lemma {:induction false} MatchingSuffixes(v: View, from: Path, to: Path, s: Path)
    requires Ordered(v) && Projects(v, from) && Projects(v, to) && NestedBindsMatch(v, from, to)
    ensures Corresponds(v, from, to, s)
    decreases |s|
  {
    if s == [] {
      assert from + s == from && to + s == to;
    } else {
      var init, c := s[..|s| - 1], s[|s| - 1];
      assert init + [c] == s;
      MatchingSuffixes(v, from, to, init);
      ProjectsBelow(v, from, init);
      ProjectsBelow(v, to, init);
      MatchingChild(v, from, to, init, c);
    }
  }

  /** A destination below one end is one of those that must match. */
  lemma NestedBelowSource(v: View, from: Path, to: Path, s: Path, k: nat)
    requires NestedBindsMatch(v, from, to) && k < |v| && s != [] && v[k].destination == from + s
    ensures Corresponds(v, from, to, s)
  {
    assert from < v[k].destination && v[k].destination[|from|..] == s;
  }

  lemma NestedBelowTarget(v: View, from: Path, to: Path, s: Path, k: nat)
    requires NestedBindsMatch(v, from, to) && k < |v| && s != [] && v[k].destination == to + s
    ensures Corresponds(v, from, to, s)
  {
    assert to < v[k].destination && v[k].destination[|to|..] == s;
  }

  lemma BothGoOn(v: View, from: Path, to: Path, s: Path, c: Bytes)
    requires Corresponds(v, from, to, s)
    requires Resolve(v, from + (s + [c])) == Resolve(v, from + s) + [c]
    requires Resolve(v, to + (s + [c])) == Resolve(v, to + s) + [c]
    ensures Corresponds(v, from, to, s + [c])
  {
    Extended(Resolve(v, from), Resolve(v, from + s), c);
    Extended(Resolve(v, to), Resolve(v, to + s), c);
  }

  /** One name further down, a path is resolved further down too, or is a destination. */
  lemma ChildGoes(v: View, p: Path, s: Path, c: Bytes) returns (nested: Option<nat>)
    requires Ordered(v) && Projects(v, p + s)
    ensures nested.None? ==> Resolve(v, p + (s + [c])) == Resolve(v, p + s) + [c]
    ensures nested.Some? ==> nested.value < |v| && v[nested.value].destination == p + (s + [c])
  {
    assert p + s + [c] == p + (s + [c]);
    ChildSelection(v, p + s, c);
    var m := ProjectionIndex(v, p + s + [c]);
    nested := if m == ProjectionIndex(v, p + s) then None else m;
  }

  /** One name more: either end reaches a nested destination, or both go on below. */
  lemma MatchingChild(v: View, from: Path, to: Path, s: Path, c: Bytes)
    requires Ordered(v) && NestedBindsMatch(v, from, to) && Corresponds(v, from, to, s)
    requires Projects(v, from + s) && Projects(v, to + s)
    ensures Corresponds(v, from, to, s + [c])
  {
    var m := ChildGoes(v, from, s, c);
    var n := ChildGoes(v, to, s, c);
    if m.Some? {
      NestedBelowSource(v, from, to, s + [c], m.value);
    } else if n.Some? {
      NestedBelowTarget(v, from, to, s + [c], n.value);
    } else {
      BothGoOn(v, from, to, s, c);
    }
  }

  lemma Extended(a: Path, x: Path, c: Bytes)
    requires a <= x
    ensures a <= x + [c] && (x + [c])[|a|..] == x[|a|..] + [c]
  {
  }

  lemma AllSuffixesMatch(v: View, from: Path, to: Path)
    requires Clean(v) && forall s :: NormalPath(s) ==> Corresponds(v, from, to, s)
    ensures NestedBindsMatch(v, from, to)
  {
    forall k | 0 <= k < |v|
      ensures from < v[k].destination ==> Corresponds(v, from, to, v[k].destination[|from|..])
      ensures to < v[k].destination ==> Corresponds(v, from, to, v[k].destination[|to|..])
    {
      if from < v[k].destination {
        NormalTail(v[k].destination, |from|);
      }
      if to < v[k].destination {
        NormalTail(v[k].destination, |to|);
      }
    }
  }

  lemma MatchesExactly(v: View, from: Path, to: Path)
    requires ValidView(v) && Projects(v, from) && Projects(v, to)
    ensures NestedBindsMatch(v, from, to) <==> forall s :: NormalPath(s) ==> Corresponds(v, from, to, s)
  {
    if NestedBindsMatch(v, from, to) {
      forall s | NormalPath(s) ensures Corresponds(v, from, to, s) {
        MatchingSuffixes(v, from, to, s);
      }
    } else if forall s :: NormalPath(s) ==> Corresponds(v, from, to, s) {
      AllSuffixesMatch(v, from, to);
    }
  }

  /** Whoever enters a host end does so through the first path of its bind. */
  lemma EnteringIsInside(v: View, from: Path, to: Path, x: Path, e: Path)
    requires Ordered(v) && Projects(v, x) && e <= Resolve(v, x)
    requires EntersInside(v, ProjectionIndex(v, x).value, e, from, to)
    ensures from <= x || to <= x
  {
    var pr := v[ProjectionIndex(v, x).value];
    if |e| <= |pr.source| {
      assert e == Resolve(v, x)[..|e|] == pr.source[..|e|];
    } else {
      assert pr.source == Resolve(v, x)[..|pr.source|] == e[..|pr.source|];
      var r := e[|pr.source|..];
      assert r <= x[|pr.destination|..] by {
        assert r == Resolve(v, x)[|pr.source|..|e|] == x[|pr.destination|..][..|r|];
      }
      SelectedIsNotShadowed(v, x, r);
      SuffixBelow(pr.destination, r, x);
    }
  }

  /** A bind that enters a host end from outside makes an alias. */
  lemma EnteringAliases(v: View, k: nat, e: Path, from: Path, to: Path) returns (x: Path)
    requires ValidView(v) && k < |v| && NormalPath(e) && !EntersInside(v, k, e, from, to)
    ensures Seen(v, x) && !(from <= x) && !(to <= x) && e <= Resolve(v, x)
  {
    if e <= v[k].source && !(from <= v[k].destination) && !(to <= v[k].destination) {
      NothingShadowsItself(v, k);
      UnshadowedSelects(v, k, []);
      assert v[k].destination + [] == v[k].destination && v[k].source + [] == v[k].source;
      x := v[k].destination;
    } else {
      var r := e[|v[k].source|..];
      assert v[k].source + r == e;
      UnshadowedSelects(v, k, r);
      NormalAppend(v[k].source, e, v[k].destination);
      x := v[k].destination + r;
    }
  }

  lemma NoAliasExactly(v: View, from: Path, to: Path)
    requires ValidView(v) && NormalPath(Resolve(v, from)) && NormalPath(Resolve(v, to))
    ensures NoBindEnters(v, from, to) <==> forall x :: Seen(v, x) ==> !Aliases(v, from, to, x)
  {
    var a, b := Resolve(v, from), Resolve(v, to);
    if NoBindEnters(v, from, to) {
      forall x | Seen(v, x) ensures !Aliases(v, from, to, x) {
        if a <= Resolve(v, x) {
          EnteringIsInside(v, from, to, x, a);
        } else if b <= Resolve(v, x) {
          EnteringIsInside(v, from, to, x, b);
        }
      }
    } else {
      var k :| 0 <= k < |v| && !(EntersInside(v, k, a, from, to) && EntersInside(v, k, b, from, to));
      var x := EnteringAliases(v, k, if EntersInside(v, k, a, from, to) then b else a, from, to);
      assert Aliases(v, from, to, x);
    }
  }

  /**
    On every host tree a successful rename shows the guest its own tree with the subtree moved, if
    and only if each destination strictly below one end resolves like the same place below the
    other, and no bind leads into either host end from outside the two guest ends.
   */
  lemma RenameMovesTreeExactly(v: View, from: Path, to: Path)
    requires ValidView(v) && NormalPath(from) && NormalPath(to)
    requires SameProjection(v, from, to) && Apart(Resolve(v, from), Resolve(v, to))
    ensures AlwaysMovesGuestTree(v, from, to) <==> NestedBindsMatch(v, from, to) && NoBindEnters(v, from, to)
  {
    MovesExactlyWhenCorresponding(v, from, to);
    MatchesExactly(v, from, to);
    NormalResolved(v, from);
    NormalResolved(v, to);
    NoAliasExactly(v, from, to);
  }

  lemma NormalResolved(v: View, p: Path)
    requires Clean(v) && NormalPath(p)
    ensures NormalPath(Resolve(v, p))
  {
  }

  lemma OwnEntry(v: View, from: Path, to: Path, p: Path)
    requires Ordered(v) && |v| == 1 && Projects(v, p) && (p == from || p == to)
    ensures EntersInside(v, 0, Resolve(v, p), from, to)
  {
    var pr := v[0];
    assert ProjectionIndex(v, p) == Some(0);
    assert Resolve(v, p) == pr.source + p[|pr.destination|..];
    assert pr.destination + Resolve(v, p)[|pr.source|..] == p;
    if Resolve(v, p) <= pr.source {
      assert p == pr.destination;
    }
  }

  lemma OneBindMatches(v: View, from: Path, to: Path)
    requires |v| == 1 && Projects(v, from) && Projects(v, to)
    ensures NestedBindsMatch(v, from, to)
  {
    forall k | 0 <= k < |v| ensures !(from < v[k].destination) && !(to < v[k].destination) {
      assert k == 0 && v[0].destination <= from && v[0].destination <= to;
    }
  }

  /** With one bind every successful rename below it moves the guest's tree. */
  lemma OneBindAlwaysMoves(v: View, from: Path, to: Path)
    requires ValidView(v) && |v| == 1 && NormalPath(from) && NormalPath(to)
    requires SameProjection(v, from, to) && Apart(Resolve(v, from), Resolve(v, to))
    ensures AlwaysMovesGuestTree(v, from, to)
  {
    OwnEntry(v, from, to, from);
    OwnEntry(v, from, to, to);
    OneBindMatches(v, from, to);
    RenameMovesTreeExactly(v, from, to);
  }

  /** Without a destination below it, a projected path is resolved by one projection all the way down. */
  lemma UnnestedResolves(v: View, p: Path, s: Path)
    requires Ordered(v) && Projects(v, p)
    requires forall m :: 0 <= m < |v| ==> !(p < v[m].destination)
    ensures SameProjection(v, p, p + s) && Resolve(v, p + s) == Resolve(v, p) + s
  {
    var i := ProjectionIndex(v, p).value;
    ReservedBelow(p, s);
    assert v[i].destination <= p + s;
    IndexIsLongest(v, p);
    IndexIsLongest(v, p + s);
    var j := ProjectionIndex(v, p + s).value;
    assert v[j].destination <= p;
    SuffixResolves(v, p, s);
  }

  /** Ends without a destination below them correspond. */
  lemma UnnestedEndsCorrespond(v: View, from: Path, to: Path, s: Path)
    requires Ordered(v) && Projects(v, from) && Projects(v, to)
    requires forall m :: 0 <= m < |v| ==> !(from < v[m].destination) && !(to < v[m].destination)
    ensures Corresponds(v, from, to, s)
  {
    UnnestedResolves(v, from, s);
    UnnestedResolves(v, to, s);
  }
}
