/**
  Which changes of the host tree a guest sees through its binds. A call the kernel was left to
  make goes to a path outside every bind, but that path may lie below a source.
 */
module Visibility {
  import opened Wrappers
  import opened Paths
  import opened Bind
  import opened HostView
  import opened TreeMoves
  import opened HostChanges

  /** The tree after a change; a refused one leaves it as it was. */
  function After(t: Tree, c: HostChange): Tree {
    if Applied(t, c).Ok? then Applied(t, c).value else t
  }

  ghost predicate Invisible(v: View, t: Tree, c: HostChange) {
    forall x :: Seen(v, x) ==> GuestLook(v, After(t, c), x) == GuestLook(v, t, x)
  }

  ghost predicate AlwaysInvisible(v: View, c: HostChange) {
    forall t: Tree :: Invisible(v, t, c)
  }

  /** Every bind whose source lies at or above `h` is hidden there by one nested in it. */
  ghost predicate Unseen(v: View, h: Path) {
    forall m :: 0 <= m < |v| && v[m].source <= h ==> DestinationShadows(v, m, h[|v[m].source|..])
  }

  /** Nor does any source lie below `e`. */
  ghost predicate UnseenBelow(v: View, e: Path) {
    Unseen(v, e) && forall m :: 0 <= m < |v| ==> !(e <= v[m].source)
  }

  /** The ends of the change are out of the guest's sight. */
  ghost predicate UnseenChange(v: View, c: HostChange) {
    match c
    case Unchanged => true
    case At(h, _) => Unseen(v, h)
    case Renamed(a, b) => UnseenBelow(v, a) && UnseenBelow(v, b)
  }

  /** Some tree accepts the change and is not the same afterwards. */
  predicate CanChange(c: HostChange) {
    match c
    case Unchanged => false
    case At(h, op) => RefusedAtOnce(op).None? && (op == Rmdir ==> h != [])
    case Renamed(a, b) => Apart(a, b)
  }

  ghost predicate NormalChange(c: HostChange) {
    match c
    case Unchanged => true
    case At(h, _) => NormalPath(h)
    case Renamed(a, b) => NormalPath(a) && NormalPath(b)
  }

  // ----- Where the binds lead -----

  /** A path that is seen at `h` shows an unhidden source above it. */
  lemma SeenAt(v: View, x: Path)
    requires Ordered(v) && Projects(v, x)
    ensures !Unseen(v, Resolve(v, x))
  {
    var i := ProjectionIndex(v, x).value;
    assert v[i].source <= Resolve(v, x);
    assert Resolve(v, x)[|v[i].source|..] == x[|v[i].destination|..];
    SelectedIsNotShadowed(v, x, x[|v[i].destination|..]);
  }

  lemma SeenThrough(v: View, m: nat, h: Path) returns (x: Path)
    requires ValidView(v) && NormalPath(h) && m < |v|
    requires v[m].source <= h && !DestinationShadows(v, m, h[|v[m].source|..])
    ensures x == v[m].destination + h[|v[m].source|..] && Seen(v, x) && Resolve(v, x) == h
  {
    x := v[m].destination + h[|v[m].source|..];
    UnshadowedSelects(v, m, h[|v[m].source|..]);
    NormalAppend(v[m].source, h, v[m].destination);
  }

  /** A path that is seen at or below `e` shows that a bind leads there. */
  lemma SeenBelowEnd(v: View, x: Path, e: Path)
    requires Ordered(v) && Projects(v, x) && e <= Resolve(v, x)
    ensures !UnseenBelow(v, e)
  {
    var pr := v[ProjectionIndex(v, x).value];
    if |e| <= |pr.source| {
      assert e == Resolve(v, x)[..|e|] == pr.source[..|e|];
    } else {
      assert pr.source == Resolve(v, x)[..|pr.source|] == e[..|pr.source|];
      var r := e[|pr.source|..];
      assert r == Resolve(v, x)[|pr.source|..|e|] == x[|pr.destination|..][..|r|];
      SelectedIsNotShadowed(v, x, r);
    }
  }

  lemma SeenInside(v: View, e: Path) returns (x: Path)
    requires ValidView(v) && NormalPath(e) && !UnseenBelow(v, e)
    ensures Seen(v, x) && e <= Resolve(v, x)
  {
    if !Unseen(v, e) {
      var m :| 0 <= m < |v| && v[m].source <= e && !DestinationShadows(v, m, e[|v[m].source|..]);
      x := SeenThrough(v, m, e);
    } else {
      var m :| 0 <= m < |v| && e <= v[m].source;
      NothingShadowsItself(v, m);
      assert v[m].source[|v[m].source|..] == [];
      x := SeenThrough(v, m, v[m].source);
    }
  }

  // ----- Out of sight is invisible -----

  lemma UnseenNode(v: View, t: Tree, h: Path, op: Op, x: Path)
    requires Ordered(v) && Projects(v, x) && Unseen(v, h)
    ensures GuestLook(v, After(t, At(h, op)), x) == GuestLook(v, t, x)
  {
    SeenAt(v, x);
    if HostPerform(t, h, op).Ok? {
      assert Resolve(v, x) != h;
    }
  }

  lemma UnseenSubtrees(v: View, t: Tree, a: Path, b: Path, x: Path)
    requires Ordered(v) && Projects(v, x) && UnseenBelow(v, a) && UnseenBelow(v, b)
    ensures GuestLook(v, After(t, Renamed(a, b)), x) == GuestLook(v, t, x)
  {
    if HostRename(t, a, b).Ok? && a != b {
      if a <= Resolve(v, x) {
        SeenBelowEnd(v, x, a);
      } else if b <= Resolve(v, x) {
        SeenBelowEnd(v, x, b);
      } else {
        RenameIncomparable(t, a, b);
        MoveLook(t, a, b, Resolve(v, x));
      }
    }
  }

  lemma ChangesNoTree(t: Tree, c: HostChange)
    requires !CanChange(c)
    ensures After(t, c) == t
  {
  }

  lemma UnseenIsInvisible(v: View, t: Tree, c: HostChange)
    requires Ordered(v) && (CanChange(c) ==> UnseenChange(v, c))
    ensures Invisible(v, t, c)
  {
    if !CanChange(c) {
      ChangesNoTree(t, c);
    } else {
      forall x | Seen(v, x) ensures GuestLook(v, After(t, c), x) == GuestLook(v, t, x) {
        match c {
          case At(h, op) => UnseenNode(v, t, h, op, x);
          case Renamed(a, b) => UnseenSubtrees(v, t, a, b, x);
          case _ =>
        }
      }
    }
  }

  // ----- What is in sight is seen to change -----

  /** The directories above `h`, and a node at it. */
  function Prepared(h: Path, n: Option<Node>): Tree {
    SetNode(map i | 0 <= i < |h| :: h[..i] := Dir, h, n)
  }

  /** A node that the call changes. */
  function Victim(op: Op): Option<Node> {
    match op
    case Unlink => Some(File([]))
    case Rmdir => Some(Dir)
    case Truncate(length) => Some(File(seq(if length < 0 then 0 else length + 1, _ => 0)))
    case _ => None
  }

  lemma {:induction false} VictimChanges(h: Path, op: Op)
    requires CanChange(At(h, op))
    ensures HostPerform(Prepared(h, Victim(op)), h, op).Ok?
    ensures Look(HostPerform(Prepared(h, Victim(op)), h, op).value, h) != Look(Prepared(h, Victim(op)), h)
  {
    var t := Prepared(h, Victim(op));
    forall i | 0 <= i < |h| ensures Host(t)([] + h[..i]) == Some(Dir) {
      assert [] + h[..i] == h[..i] != h;
    }
    WalkDirectories(Host(t), [], h);
    HostAt(t, h);
    assert HostEmpty(t, h);
    assert Look(t, h) == Victim(op);
  }

  lemma ChangeIsSeen(v: View, h: Path, op: Op)
    requires ValidView(v) && NormalPath(h) && CanChange(At(h, op)) && !Unseen(v, h)
    ensures !AlwaysInvisible(v, At(h, op))
  {
    var m :| 0 <= m < |v| && v[m].source <= h && !DestinationShadows(v, m, h[|v[m].source|..]);
    var x := SeenThrough(v, m, h);
    VictimChanges(h, op);
    assert !Invisible(v, Prepared(h, Victim(op)), At(h, op));
  }

  /** A node at `z` that a rename of `a` onto `b` brings to `y`, or takes away from it. */
  lemma SceneChanges(a: Path, b: Path, y: Path) returns (t: Tree)
    requires Apart(a, b) && (a <= y || b <= y)
    ensures HostRename(t, a, b) == Ok(MoveTree(t, a, b))
    ensures Look(MoveTree(t, a, b), y) != Look(t, y)
  {
    var z := if b <= y then a + y[|b|..] else y;
    t := Scene(a, b, z, Dir);
    SceneRenames(a, b, z, Dir);
    MoveLook(t, a, b, y);
    SceneBelow(a, b, z, Dir, y);
    SceneBelow(a, b, z, Dir, z);
  }

  lemma RenameIsSeen(v: View, a: Path, b: Path)
    requires ValidView(v) && NormalPath(a) && NormalPath(b) && Apart(a, b)
    requires !UnseenBelow(v, a) || !UnseenBelow(v, b)
    ensures !AlwaysInvisible(v, Renamed(a, b))
  {
    var x := SeenInside(v, if UnseenBelow(v, a) then b else a);
    var t := SceneChanges(a, b, Resolve(v, x));
    assert !Invisible(v, t, Renamed(a, b));
  }

  /**
    A change of the host is invisible on all projected paths, whatever the tree, if and only if it
    changes no tree at all or no bind leads to its ends: a source at or above the path is hidden by
    a nested destination, and none lies below an end that is renamed.
   */
  lemma InvisibleExactly(v: View, c: HostChange)
    requires ValidView(v) && NormalChange(c)
    ensures AlwaysInvisible(v, c) <==> (CanChange(c) ==> UnseenChange(v, c))
  {
    if CanChange(c) ==> UnseenChange(v, c) {
      forall t: Tree ensures Invisible(v, t, c) {
        UnseenIsInvisible(v, t, c);
      }
    } else {
      match c {
        case At(h, op) => ChangeIsSeen(v, h, op);
        case Renamed(a, b) => RenameIsSeen(v, a, b);
        case _ =>
      }
    }
  }
}
