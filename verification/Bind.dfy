/**
  The bind view of bind.rs: an immutable list of projections, the forward map from
  guest paths to host paths and the reverse map back.
 */
module Bind {
  import opened Wrappers
  import opened Paths

  datatype Projection = Projection(source: Path, destination: Path)

  type View = seq<Projection>

  datatype BindSpec = BindSpec(source: Bytes, destination: Bytes)

  /** A bind argument, with what creating and canonicalising its source answers. */
  datatype Request = Request(bind: BindSpec, prepared: Result<Path, int>)

  datatype OpenError =
    | NotAbsolute
    | RootDestination
    | ReservedDestination
    | DuplicateDestination
    | SourceFailed(errno: int)

  // ----- Opening a view -----

  function Destination(r: Request): Path {
    Normalize(r.bind.destination)
  }

  predicate Admissible(r: Request) {
    && IsAbsolute(r.bind.destination)
    && Destination(r) != []
    && !Reserved(Destination(r))
    && r.prepared.Ok?
  }

  ghost predicate AllAdmissible(rs: seq<Request>) {
    forall i :: 0 <= i < |rs| ==> Admissible(rs[i])
  }

  ghost predicate DistinctDestinations(rs: seq<Request>) {
    forall i, j :: 0 <= i < j < |rs| ==> Destination(rs[i]) != Destination(rs[j])
  }

  /** What the command line must satisfy for the view to open. */
  ghost predicate Acceptable(rs: seq<Request>) {
    AllAdmissible(rs) && DistinctDestinations(rs)
  }

  function ToProjection(r: Request): Projection
    requires r.prepared.Ok?
  {
    Projection(r.prepared.value, Destination(r))
  }

  function Projections(rs: seq<Request>): (v: View)
    requires forall i :: 0 <= i < |rs| ==> rs[i].prepared.Ok?
    ensures |v| == |rs| && forall i :: 0 <= i < |v| ==> v[i] == ToProjection(rs[i])
  {
    if rs == [] then [] else [ToProjection(rs[0])] + Projections(rs[1..])
  }

  function Destinations(rs: seq<Request>): set<Path> {
    set r | r in rs :: Destination(r)
  }

  /** The first objection to `r` when the destinations `seen` are taken. */
  function Objection(seen: set<Path>, r: Request): Option<OpenError> {
    if !IsAbsolute(r.bind.destination) then Some(NotAbsolute)
    else if Destination(r) == [] then Some(RootDestination)
    else if Reserved(Destination(r)) then Some(ReservedDestination)
    else if Destination(r) in seen then Some(DuplicateDestination)
    else match r.prepared
      case Err(errno) => Some(SourceFailed(errno))
      case Ok(_) => None
  }

  lemma DestinationsNext(rs: seq<Request>, i: nat)
    requires i < |rs|
    ensures Destinations(rs[..i + 1]) == Destinations(rs[..i]) + {Destination(rs[i])}
    ensures Destination(rs[i]) !in Destinations(rs[..i]) ==>
              forall j :: 0 <= j < i ==> Destination(rs[j]) != Destination(rs[i])
  {
    var before := rs[..i];
    assert rs[..i + 1] == before + [rs[i]];
    if Destination(rs[i]) !in Destinations(before) {
      forall j | 0 <= j < i ensures Destination(rs[j]) != Destination(rs[i]) {
        assert before[j] in before;
      }
    }
  }

  lemma AdmissibleNext(rs: seq<Request>, i: nat)
    requires i < |rs| && AllAdmissible(rs[..i]) && Admissible(rs[i])
    ensures AllAdmissible(rs[..i + 1])
    ensures Projections(rs[..i + 1]) == Projections(rs[..i]) + [ToProjection(rs[i])]
  {
    var before, after := rs[..i], rs[..i + 1];
    assert after == before + [rs[i]];
    forall k | 0 <= k < |after| ensures Admissible(after[k]) {
      assert k < i ==> after[k] == before[k];
    }
  }

  lemma DistinctAt(rs: seq<Request>, j: nat, k: nat)
    requires DistinctDestinations(rs) && j < k < |rs|
    ensures Destination(rs[j]) != Destination(rs[k])
  {
  }

  lemma DistinctNext(rs: seq<Request>, i: nat)
    requires i < |rs| && DistinctDestinations(rs[..i])
    requires forall j :: 0 <= j < i ==> Destination(rs[j]) != Destination(rs[i])
    ensures DistinctDestinations(rs[..i + 1])
  {
    var before, after := rs[..i], rs[..i + 1];
    forall j, k | 0 <= j < k < |after| ensures Destination(after[j]) != Destination(after[k]) {
      if k < i {
        DistinctAt(before, j, k);
        assert before[j] == after[j] && before[k] == after[k];
      } else {
        assert after[j] == rs[j] && after[k] == rs[i];
      }
    }
  }

  lemma AcceptNext(rs: seq<Request>, i: nat)
    requires i < |rs| && Acceptable(rs[..i])
    requires Objection(Destinations(rs[..i]), rs[i]).None?
    ensures Acceptable(rs[..i + 1])
    ensures Projections(rs[..i + 1]) == Projections(rs[..i]) + [ToProjection(rs[i])]
  {
    DestinationsNext(rs, i);
    AdmissibleNext(rs, i);
    DistinctNext(rs, i);
  }

  lemma RejectNext(rs: seq<Request>, i: nat)
    requires i < |rs| && Objection(Destinations(rs[..i]), rs[i]).Some?
    ensures !Acceptable(rs)
  {
    if Admissible(rs[i]) {
      var r :| r in rs[..i] && Destination(r) == Destination(rs[i]);
      var j :| 0 <= j < i && rs[..i][j] == r;
      assert Destination(rs[j]) == Destination(rs[i]);
    }
  }

  /** The binds before `k` are acceptable, and `k` is refused with `e`. */
  ghost predicate RefusedAt(rs: seq<Request>, k: nat, e: OpenError) {
    k < |rs| && Acceptable(rs[..k]) && Objection(Destinations(rs[..k]), rs[k]) == Some(e)
  }

  ghost predicate FirstRefusal(rs: seq<Request>, e: OpenError) {
    exists k: nat :: RefusedAt(rs, k, e)
  }

  /** Refuses the first objectionable bind, in argument order; otherwise sorts the projections. */
  method Open(rs: seq<Request>) returns (r: Result<View, OpenError>)
    ensures r.Ok? <==> Acceptable(rs)
    ensures r.Ok? ==> r.value == SortByDepth(Projections(rs))
    ensures r.Err? ==> FirstRefusal(rs, r.error)
  {
    var destinations: set<Path> := {};
    var projections: View := [];
    for i := 0 to |rs|
      invariant Acceptable(rs[..i])
      invariant destinations == Destinations(rs[..i])
      invariant projections == Projections(rs[..i])
    {
      ghost var objection := Objection(destinations, rs[i]);
      DestinationsNext(rs, i);
      if objection.Some? {
        RejectNext(rs, i);
        assert RefusedAt(rs, i, objection.value);
      } else {
        AcceptNext(rs, i);
      }
      var bind := rs[i].bind;
      if !IsAbsolute(bind.destination) {
        return Err(NotAbsolute);
      }
      var destination := Normalize(bind.destination);
      if destination == [] {
        return Err(RootDestination);
      }
      if Reserved(destination) {
        return Err(ReservedDestination);
      }
      if destination in destinations {
        return Err(DuplicateDestination);
      }
      destinations := destinations + {destination};
      match rs[i].prepared {
        case Err(errno) => return Err(SourceFailed(errno));
        case Ok(source) => projections := projections + [Projection(source, destination)];
      }
    }
    assert rs[..|rs|] == rs;
    return Ok(SortByDepth(projections));
  }

  /** The first name is that of a directory the host must show as it is: `dev`, `proc` or `sys`. */
  predicate OnSystem(p: Path) {
    p != [] && p[0] in [[100, 101, 118], [112, 114, 111, 99], [115, 121, 115]]
  }

  lemma ReservedExactly(p: Path)
    ensures Reserved(p) <==> OnSystem(p)
  {
    assert forall r: Bytes :: [r] <= p <==> p != [] && p[0] == r;
  }

  /** What must hold of `rs[k]` for each reason to refuse it, given that those before are accepted. */
  ghost predicate Reason(rs: seq<Request>, k: nat, e: OpenError)
    requires k < |rs|
  {
    var pathname, p := rs[k].bind.destination, Normalize(rs[k].bind.destination);
    var taken := exists j :: 0 <= j < k && Normalize(rs[j].bind.destination) == p;
    var absolute := pathname != [] && pathname[0] == 47;
    match e
    case NotAbsolute => !absolute
    case RootDestination => absolute && p == []
    case ReservedDestination => absolute && OnSystem(p)
    case DuplicateDestination => absolute && p != [] && !OnSystem(p) && taken
    case SourceFailed(errno) => absolute && p != [] && !OnSystem(p) && !taken && rs[k].prepared == Err(errno)
  }

  /** The first bind that gives a reason is refused with it. */
  lemma RefusedExactly(rs: seq<Request>, k: nat, e: OpenError)
    requires k < |rs|
    ensures RefusedAt(rs, k, e) <==> Acceptable(rs[..k]) && Reason(rs, k, e)
  {
    ReservedExactly(Normalize(rs[k].bind.destination));
    TakenExactly(rs, k);
  }

  lemma TakenExactly(rs: seq<Request>, k: nat)
    requires k < |rs|
    ensures Destination(rs[k]) in Destinations(rs[..k]) <==>
            exists j :: 0 <= j < k && Normalize(rs[j].bind.destination) == Normalize(rs[k].bind.destination)
  {
    if Destination(rs[k]) in Destinations(rs[..k]) {
      var r :| r in rs[..k] && Destination(r) == Destination(rs[k]);
      var j :| 0 <= j < k && rs[..k][j] == r;
      assert Normalize(rs[j].bind.destination) == Normalize(rs[k].bind.destination);
    } else {
      forall j | 0 <= j < k ensures Normalize(rs[j].bind.destination) != Normalize(rs[k].bind.destination) {
        assert rs[..k][j] in rs[..k];
      }
    }
  }

  // ----- The stable sort -----

  function Depth(p: Projection): nat {
    |p.destination|
  }

  ghost predicate Sorted(v: View) {
    forall i, j :: 0 <= i < j < |v| ==> Depth(v[i]) >= Depth(v[j])
  }

  /** Puts `p` before the first projection that is not strictly deeper. */
  function Insert(p: Projection, v: View): View {
    if v != [] && Depth(v[0]) > Depth(p) then [v[0]] + Insert(p, v[1..]) else [p] + v
  }

  /** `sort_by_key(Reverse(depth))`: descending depth, equal depths in argument order. */
  function SortByDepth(v: View): View {
    if v == [] then [] else Insert(v[0], SortByDepth(v[1..]))
  }

  /** The projections of one depth, in list order. */
  function AtDepth(v: View, d: nat): View {
    if v == [] then [] else (if Depth(v[0]) == d then [v[0]] else []) + AtDepth(v[1..], d)
  }

  lemma {:induction false} InsertMembers(p: Projection, v: View)
    ensures multiset(Insert(p, v)) == multiset([p] + v)
  {
    if v != [] {
      assert v == [v[0]] + v[1..];
      if Depth(v[0]) > Depth(p) {
        InsertMembers(p, v[1..]);
      }
    }
  }

  lemma {:induction false} InsertSorted(p: Projection, v: View)
    requires Sorted(v)
    ensures Sorted(Insert(p, v))
  {
    if v != [] && Depth(v[0]) > Depth(p) {
      InsertSorted(p, v[1..]);
      InsertMembers(p, v[1..]);
      var w := Insert(p, v[1..]);
      forall i | 0 <= i < |w| ensures Depth(w[i]) <= Depth(v[0]) {
        assert w[i] in multiset(w);
      }
    }
  }

  lemma {:induction false} InsertStable(p: Projection, v: View, d: nat)
    requires Sorted(v)
    ensures AtDepth(Insert(p, v), d) == AtDepth([p] + v, d)
  {
    assert ([p] + v)[1..] == v;
    if v != [] && Depth(v[0]) > Depth(p) {
      InsertStable(p, v[1..], d);
      assert ([p] + v[1..])[1..] == v[1..];
      assert ([v[0]] + Insert(p, v[1..]))[1..] == Insert(p, v[1..]);
    }
  }

  /** The sort orders by depth, keeps every projection and is stable. */
  lemma {:induction false} SortIsStable(v: View, d: nat)
    ensures Sorted(SortByDepth(v))
    ensures multiset(SortByDepth(v)) == multiset(v)
    ensures AtDepth(SortByDepth(v), d) == AtDepth(v, d)
  {
    if v != [] {
      SortIsStable(v[1..], d);
      InsertSorted(v[0], SortByDepth(v[1..]));
      InsertMembers(v[0], SortByDepth(v[1..]));
      InsertStable(v[0], SortByDepth(v[1..]), d);
      assert v == [v[0]] + v[1..];
      assert ([v[0]] + SortByDepth(v[1..]))[1..] == SortByDepth(v[1..]);
    }
  }

  lemma {:induction false} SortedIsFixed(v: View)
    requires Sorted(v)
    ensures SortByDepth(v) == v
  {
    if v != [] {
      SortedIsFixed(v[1..]);
    }
  }

  // ----- Forward lookup -----

  ghost predicate Distinct(v: View) {
    forall i, j :: 0 <= i < j < |v| ==> v[i].destination != v[j].destination
  }

  /** What `Open` establishes about the order of the list it returns. */
  ghost predicate Ordered(v: View) {
    && Sorted(v)
    && Distinct(v)
    && (forall i :: 0 <= i < |v| ==> v[i].destination != [] && !Reserved(v[i].destination))
  }

  ghost predicate Clean(v: View) {
    forall i :: 0 <= i < |v| ==> NormalPath(v[i].destination) && NormalPath(v[i].source)
  }

  ghost predicate ValidView(v: View) {
    Ordered(v) && Clean(v)
  }

  function FirstMatch(v: View, p: Path, from: nat): (r: Option<nat>)
    requires from <= |v|
    ensures r.Some? ==> from <= r.value < |v| && v[r.value].destination <= p
    ensures r.Some? ==> forall j :: from <= j < r.value ==> !(v[j].destination <= p)
    ensures r.None? ==> forall j :: from <= j < |v| ==> !(v[j].destination <= p)
    decreases |v| - from
  {
    if from == |v| then None
    else if v[from].destination <= p then Some(from)
    else FirstMatch(v, p, from + 1)
  }

  function ProjectionIndex(v: View, p: Path): Option<nat> {
    if Reserved(p) then None else FirstMatch(v, p, 0)
  }

  predicate Projects(v: View, p: Path) {
    ProjectionIndex(v, p).Some?
  }

  predicate SameProjection(v: View, p: Path, q: Path) {
    Projects(v, p) && ProjectionIndex(v, p) == ProjectionIndex(v, q)
  }

  function ResolveIn(pr: Projection, p: Path): Path
    requires pr.destination <= p
  {
    pr.source + p[|pr.destination|..]
  }

  /** The forward map; a path outside every bind keeps its own meaning. */
  function Resolve(v: View, p: Path): Path {
    match ProjectionIndex(v, p)
    case None => p
    case Some(i) => ResolveIn(v[i], p)
  }

  /** `pr` is a bind of `v` whose destination is the longest one above `p`. */
  ghost predicate LongestDestination(v: View, p: Path, pr: Projection) {
    && !Reserved(p)
    && pr in v && pr.destination <= p
    && forall o :: o in v && o.destination <= p ==> |o.destination| <= |pr.destination|
  }

  /** Every other bind above `p` has a strictly shorter destination. */
  lemma IndexIsLongest(v: View, p: Path)
    requires Ordered(v) && Projects(v, p)
    ensures forall j :: 0 <= j < |v| && v[j].destination <= p && j != ProjectionIndex(v, p).value ==>
                          |v[j].destination| < |v[ProjectionIndex(v, p).value].destination|
  {
    var i := ProjectionIndex(v, p).value;
    forall j | 0 <= j < |v| && v[j].destination <= p && j != i
      ensures |v[j].destination| < |v[i].destination|
    {
      assert i < j && Depth(v[i]) >= Depth(v[j]);
      assert v[i].destination == p[..|v[i].destination|] && v[j].destination == p[..|v[j].destination|];
    }
  }

  /** First match is longest destination, and there is only one such bind. */
  lemma FirstMatchIsLongest(v: View, p: Path, pr: Projection)
    requires Ordered(v)
    ensures LongestDestination(v, p, pr) <==> Projects(v, p) && v[ProjectionIndex(v, p).value] == pr
  {
    if Projects(v, p) {
      IndexIsLongest(v, p);
      var i := ProjectionIndex(v, p).value;
      assert v[i] in v;
    }
  }

  lemma {:induction false} OpenedIsValid(rs: seq<Request>)
    requires Acceptable(rs)
    requires forall i :: 0 <= i < |rs| ==> NulFree(rs[i].bind.destination) && NormalPath(rs[i].prepared.value)
    ensures ValidView(SortByDepth(Projections(rs)))
    ensures forall pr :: pr in SortByDepth(Projections(rs)) <==> pr in Projections(rs)
  {
    var raw := Projections(rs);
    var v := SortByDepth(raw);
    SortIsStable(raw, 0);
    SameMembers(v, raw);
    forall i | 0 <= i < |v|
      ensures v[i].destination != [] && !Reserved(v[i].destination)
      ensures NormalPath(v[i].destination) && NormalPath(v[i].source)
    {
      assert v[i] in raw;
      var j :| 0 <= j < |raw| && raw[j] == v[i];
      assert Admissible(rs[j]);
      FoldIsNormal([], rs[j].bind.destination);
    }
    assert Distinct(v) by {
      PermutedDistinct(raw, v);
    }
  }

  lemma PermutedDistinct(v: View, w: View)
    requires Distinct(v)
    requires |v| == |w| || multiset(v) == multiset(w)
    requires forall pr :: pr in v <==> pr in w
    ensures Distinct(w)
  {
    assert multiset(v) == multiset(w) ==> |v| == |multiset(v)| == |w|;
    DistinctByDestinations(v);
    DistinctByDestinations(w);
    assert DestinationSet(v) == DestinationSet(w);
  }

  lemma SameMembers(v: View, w: View)
    requires multiset(v) == multiset(w)
    ensures forall pr :: pr in v <==> pr in w
  {
    assert forall pr :: pr in v <==> pr in multiset(v);
    assert forall pr :: pr in w <==> pr in multiset(w);
  }

  function DestinationSet(v: View): set<Path> {
    set pr | pr in v :: pr.destination
  }

  /** Destinations are distinct exactly when there are as many of them as binds. */
  lemma {:induction false} DistinctByDestinations(v: View)
    ensures |DestinationSet(v)| <= |v|
    ensures Distinct(v) <==> |DestinationSet(v)| == |v|
  {
    if v == [] {
      assert DestinationSet(v) == {};
    } else {
      var init, last := v[..|v| - 1], v[|v| - 1];
      assert v == init + [last];
      DistinctByDestinations(init);
      DistinctLast(init, last);
      assert DestinationSet(v) == DestinationSet(init) + {last.destination};
    }
  }

  lemma DistinctLast(init: View, last: Projection)
    ensures Distinct(init + [last]) <==> Distinct(init) && last.destination !in DestinationSet(init)
  {
    var v := init + [last];
    if last.destination in DestinationSet(init) {
      var pr :| pr in init && pr.destination == last.destination;
      var i :| 0 <= i < |init| && init[i] == pr;
      assert v[i].destination == v[|init|].destination;
    } else {
      forall i | 0 <= i < |init| ensures v[i].destination != last.destination {
        assert init[i] in init;
      }
    }
    if Distinct(v) {
      forall i, j | 0 <= i < j < |init| ensures init[i].destination != init[j].destination {
        assert v[i].destination != v[j].destination;
      }
    }
  }

  // ----- Argument order does not matter -----

  lemma SelectionByMembers(v: View, w: View, p: Path)
    requires Ordered(v) && Ordered(w)
    requires forall pr :: pr in v <==> pr in w
    ensures Projects(v, p) <==> Projects(w, p)
    ensures Projects(v, p) ==> v[ProjectionIndex(v, p).value] == w[ProjectionIndex(w, p).value]
  {
    if Projects(v, p) {
      var pr := v[ProjectionIndex(v, p).value];
      FirstMatchIsLongest(v, p, pr);
      FirstMatchIsLongest(w, p, pr);
    }
    if Projects(w, p) {
      var pr := w[ProjectionIndex(w, p).value];
      FirstMatchIsLongest(v, p, pr);
      FirstMatchIsLongest(w, p, pr);
    }
  }

  /** `b` is `a` with its binds reordered. */
  ghost predicate Permuted(a: seq<Request>, b: seq<Request>) {
    multiset(a) == multiset(b)
  }

  lemma {:induction false} PermutedProjections(a: seq<Request>, b: seq<Request>)
    requires Permuted(a, b)
    requires AllAdmissible(a) && AllAdmissible(b)
    ensures |a| == |b|
    ensures forall pr :: pr in Projections(a) <==> pr in Projections(b)
  {
    assert |a| == |multiset(a)| == |b|;
    MembersProject(a, b);
    MembersProject(b, a);
  }

  lemma {:induction false} MembersProject(a: seq<Request>, b: seq<Request>)
    requires Permuted(a, b)
    requires AllAdmissible(a) && AllAdmissible(b)
    ensures forall pr :: pr in Projections(a) ==> pr in Projections(b)
  {
    forall pr | pr in Projections(a) ensures pr in Projections(b) {
      var i :| 0 <= i < |a| && ToProjection(a[i]) == pr;
      assert a[i] in multiset(a);
      assert a[i] in b;
      var j :| 0 <= j < |b| && b[j] == a[i];
      assert Projections(b)[j] == pr;
    }
  }

  lemma PermutedAcceptable(a: seq<Request>, b: seq<Request>)
    requires Permuted(a, b) && Acceptable(a)
    ensures Acceptable(b)
  {
    forall i | 0 <= i < |b| ensures Admissible(b[i]) {
      assert b[i] in multiset(b);
      assert b[i] in a;
    }
    PermutedProjections(a, b);
    var v, w := Projections(a), Projections(b);
    assert Distinct(v);
    PermutedDistinct(v, w);
    forall i, j | 0 <= i < j < |b| ensures Destination(b[i]) != Destination(b[j]) {
      assert w[i].destination != w[j].destination;
    }
  }

  lemma SameProjectionByValue(v: View, p: Path, q: Path)
    requires Ordered(v)
    ensures SameProjection(v, p, q) <==>
            Projects(v, p) && Projects(v, q) && v[ProjectionIndex(v, p).value] == v[ProjectionIndex(v, q).value]
  {
  }

  /** Permuting the bind arguments changes neither acceptance nor any forward lookup. */
  lemma {:induction false} OrderIndependence(a: seq<Request>, b: seq<Request>, p: Path, q: Path)
    requires Permuted(a, b)
    requires forall r :: r in a ==> NulFree(r.bind.destination) && (r.prepared.Ok? ==> NormalPath(r.prepared.value))
    ensures Acceptable(a) <==> Acceptable(b)
    ensures Acceptable(a) ==>
              var v, w := SortByDepth(Projections(a)), SortByDepth(Projections(b));
              && Resolve(v, p) == Resolve(w, p)
              && (Projects(v, p) <==> Projects(w, p))
              && (SameProjection(v, p, q) <==> SameProjection(w, p, q))
  {
    if Acceptable(b) {
      PermutedAcceptable(b, a);
    }
    if Acceptable(a) {
      PermutedAcceptable(a, b);
      PermutedProjections(a, b);
      forall i | 0 <= i < |b| ensures b[i] in a {
        assert b[i] in multiset(b);
      }
      OpenedIsValid(a);
      OpenedIsValid(b);
      var v, w := SortByDepth(Projections(a)), SortByDepth(Projections(b));
      SelectionByMembers(v, w, p);
      SelectionByMembers(v, w, q);
      SameProjectionByValue(v, p, q);
      SameProjectionByValue(w, p, q);
    }
  }

  // ----- Reopening -----

  /** The arguments `reopen` builds; canonicalising an already canonical source returns it. */
  function ReopenRequests(v: View): seq<Request> {
    seq(|v|, i requires 0 <= i < |v| =>
      Request(BindSpec(Print(v[i].source), Print(v[i].destination)), Ok(v[i].source)))
  }

  /** Reopening a view accepts it and reproduces the identical list. */
  lemma ReopenIsIdentity(v: View)
    requires ValidView(v)
    ensures Acceptable(ReopenRequests(v))
    ensures SortByDepth(Projections(ReopenRequests(v))) == v
  {
    var rs := ReopenRequests(v);
    forall i | 0 <= i < |rs| ensures Admissible(rs[i]) && Destination(rs[i]) == v[i].destination {
      PrintRoundTrip(v[i].destination);
    }
    assert Projections(rs) == v;
    SortedIsFixed(v);
  }

  // ----- Reverse lookup -----

  /** The last projection of greatest source depth above `host`, as `max_by_key` keeps it. */
  function DeepestSource(v: View, host: Path): (r: Option<nat>)
    ensures r.Some? ==> r.value < |v| && v[r.value].source <= host
    ensures r.Some? ==> forall j :: 0 <= j < |v| && v[j].source <= host ==>
                          |v[j].source| <= |v[r.value].source| && (j > r.value ==> |v[j].source| < |v[r.value].source|)
    ensures r.None? ==> forall j :: 0 <= j < |v| ==> !(v[j].source <= host)
  {
    if v == [] then None
    else
      var n := |v| - 1;
      var best := DeepestSource(v[..n], host);
      assert forall j :: 0 <= j < n ==> v[..n][j] == v[j];
      if v[n].source <= host && (best.None? || |v[best.value].source| <= |v[n].source|) then Some(n) else best
  }

  function VirtualForHost(v: View, host: Path): Path {
    match DeepestSource(v, host)
    case None => host
    case Some(i) => v[i].destination + host[|v[i].source|..]
  }

  method ReverseLookup(v: View, host: Path) returns (r: Path)
    ensures r == VirtualForHost(v, host)
  {
    var best: Option<nat> := None;
    for i := 0 to |v|
      invariant best == DeepestSource(v[..i], host)
    {
      assert v[..i + 1][..i] == v[..i];
      if v[i].source <= host && (best.None? || |v[best.value].source| <= |v[i].source|) {
        best := Some(i);
      }
    }
    assert v[..|v|] == v;
    r := if best.None? then host else v[best.value].destination + host[|v[best.value].source|..];
  }

  // ----- Argument order and the reverse lookup -----

  /** Among the binds of one source, one destination is shallower than all others. */
  ghost predicate ShallowestUnique(v: View) {
    forall p, q :: p in v && q in v && p != q && p.source == q.source && Depth(p) == Depth(q) ==>
                     exists o :: o in v && o.source == p.source && Depth(o) < Depth(p)
  }

  lemma SameSource(a: Path, b: Path, h: Path)
    requires a <= h && b <= h && |a| == |b|
    ensures a == b
  {
    assert a == h[..|a|] && b == h[..|b|];
  }

  /** The reverse lookup picks, among the deepest sources, one that no member undercuts in depth. */
  lemma {:induction false} PickIsShallowest(v: View, h: Path, o: Projection)
    requires Ordered(v) && DeepestSource(v, h).Some? && o in v && o.source <= h
    ensures var pick := v[DeepestSource(v, h).value];
            && |o.source| <= |pick.source|
            && (|o.source| == |pick.source| ==> o.source == pick.source && Depth(pick) <= Depth(o))
  {
    var d := DeepestSource(v, h).value;
    var j :| 0 <= j < |v| && v[j] == o;
    if |o.source| == |v[d].source| {
      SameSource(o.source, v[d].source, h);
      assert j <= d;
    }
  }

  lemma PickByMembers(v: View, w: View, h: Path)
    requires Ordered(v) && Ordered(w) && ShallowestUnique(v)
    requires forall pr :: pr in v <==> pr in w
    ensures VirtualForHost(v, h) == VirtualForHost(w, h)
  {
    FoundByMembers(v, w, h);
    FoundByMembers(w, v, h);
    if DeepestSource(v, h).Some? {
      var p := v[DeepestSource(v, h).value];
      assert p in v;
      var q := w[DeepestSource(w, h).value];
      assert q in w;
      PickIsShallowest(v, h, q);
      PickIsShallowest(w, h, p);
      if p != q {
        var o :| o in v && o.source == p.source && Depth(o) < Depth(p);
        PickIsShallowest(v, h, o);
      }
    }
  }

  lemma {:induction false} FoundByMembers(v: View, w: View, h: Path)
    requires forall pr :: pr in v <==> pr in w
    ensures DeepestSource(w, h).Some? ==> DeepestSource(v, h).Some?
  {
    if DeepestSource(w, h).Some? {
      assert w[DeepestSource(w, h).value] in v;
    }
  }

  /** A projection inserted first stands before everything that is not deeper. */
  lemma {:induction false} InsertBefore(p: Projection, v: View, o: Projection) returns (i: nat, j: nat)
    requires o in v && Depth(o) <= Depth(p) && Sorted(v)
    ensures i < j < |Insert(p, v)| && Insert(p, v)[i] == p && Insert(p, v)[j] == o
  {
    if Depth(v[0]) > Depth(p) {
      assert v == [v[0]] + v[1..] && o in v[1..];
      i, j := InsertBefore(p, v[1..], o);
      i, j := i + 1, j + 1;
    } else {
      var k :| 0 <= k < |v| && v[k] == o;
      i, j := 0, k + 1;
    }
  }

  function MovedToFront(rs: seq<Request>, n: nat): seq<Request>
    requires n < |rs|
  {
    [rs[n]] + (rs[..n] + rs[n + 1..])
  }

  lemma FrontIsPermuted(rs: seq<Request>, n: nat)
    requires n < |rs|
    ensures Permuted(rs, MovedToFront(rs, n))
  {
    assert rs == rs[..n] + [rs[n]] + rs[n + 1..];
  }

  /** The same arguments in the order `b` find the same guest path for `h`. */
  ghost predicate ReverseAlike(a: seq<Request>, b: seq<Request>, h: Path)
    requires AllAdmissible(a)
  {
    Permuted(a, b) && AllAdmissible(b) ==>
      VirtualForHost(SortByDepth(Projections(a)), h) == VirtualForHost(SortByDepth(Projections(b)), h)
  }

  ghost predicate ReverseIndependent(a: seq<Request>)
    requires AllAdmissible(a)
  {
    forall b: seq<Request>, h: Path :: ReverseAlike(a, b, h)
  }

  ghost predicate CleanRequests(rs: seq<Request>) {
    forall r :: r in rs ==> NulFree(r.bind.destination) && (r.prepared.Ok? ==> NormalPath(r.prepared.value))
  }

  lemma {:induction false} SortedView(rs: seq<Request>)
    requires Acceptable(rs) && CleanRequests(rs)
    ensures Ordered(SortByDepth(Projections(rs)))
    ensures forall pr :: pr in SortByDepth(Projections(rs)) <==> pr in Projections(rs)
  {
    forall i | 0 <= i < |rs| ensures NulFree(rs[i].bind.destination) && NormalPath(rs[i].prepared.value) {
      assert rs[i] in rs;
    }
    OpenedIsValid(rs);
  }

  lemma {:induction false} PermutedView(a: seq<Request>, b: seq<Request>)
    requires Permuted(a, b) && Acceptable(a) && CleanRequests(a)
    ensures Acceptable(b) && Ordered(SortByDepth(Projections(b)))
    ensures forall pr :: pr in SortByDepth(Projections(b)) <==> pr in Projections(a)
  {
    PermutedAcceptable(a, b);
    PermutedProjections(a, b);
    forall r | r in b ensures NulFree(r.bind.destination) && (r.prepared.Ok? ==> NormalPath(r.prepared.value)) {
      assert r in multiset(b);
      assert r in a;
    }
    SortedView(b);
  }

  /** Of two binds of one source the earlier is not picked. */
  lemma EarlierIsNotPicked(w: View, i: nat, j: nat)
    requires Ordered(w) && i < j < |w| && w[i].source == w[j].source
    ensures VirtualForHost(w, w[i].source) != w[i].destination
  {
    var h := w[i].source;
    var d := DeepestSource(w, h).value;
    assert |w[d].source| == |h| && d != i;
    assert w[d].destination + h[|w[d].source|..] == w[d].destination;
    assert w[d].destination != w[i].destination;
  }

  /** Where the request at `k` of the reordered arguments comes from. */
  lemma FrontAt(a: seq<Request>, n: nat, k: nat)
    requires n < |a| && k < |a|
    ensures MovedToFront(a, n)[k] == a[if k == 0 then n else if k <= n then k - 1 else k]
  {
  }

  lemma AdmissibleFront(a: seq<Request>, n: nat)
    requires AllAdmissible(a) && n < |a|
    ensures AllAdmissible(MovedToFront(a, n))
  {
    var b := MovedToFront(a, n);
    forall k | 0 <= k < |b| ensures Admissible(b[k]) {
      FrontAt(a, n, k);
    }
  }

  lemma AdmissibleRest(a: seq<Request>, n: nat)
    requires AllAdmissible(a) && n < |a|
    ensures AllAdmissible(MovedToFront(a, n)) && AllAdmissible(MovedToFront(a, n)[1..])
    ensures forall k :: 0 <= k < |a| && k != n ==> MovedToFront(a, n)[1..][if k < n then k else k - 1] == a[k]
  {
    AdmissibleFront(a, n);
    forall k | 0 <= k < |a| && k != n
      ensures MovedToFront(a, n)[1..][if k < n then k else k - 1] == a[k]
    {
      FrontAt(a, n, if k < n then k + 1 else k);
    }
  }

  lemma {:induction false} RestHasOther(a: seq<Request>, n: nat, o: Projection)
    requires AllAdmissible(a) && n < |a| && o in Projections(a) && o != ToProjection(a[n])
    ensures AllAdmissible(MovedToFront(a, n)) && AllAdmissible(MovedToFront(a, n)[1..])
    ensures o in Projections(MovedToFront(a, n)[1..])
  {
    AdmissibleRest(a, n);
    var k := RequestOf(a, o);
    ProjectionIn(MovedToFront(a, n)[1..], if k < n then k else k - 1);
  }

  lemma {:induction false} RequestOf(rs: seq<Request>, o: Projection) returns (k: nat)
    requires AllAdmissible(rs) && o in Projections(rs)
    ensures k < |rs| && ToProjection(rs[k]) == o
  {
    k :| 0 <= k < |rs| && Projections(rs)[k] == o;
  }

  lemma {:induction false} ProjectionIn(rs: seq<Request>, k: nat)
    requires AllAdmissible(rs) && k < |rs|
    ensures ToProjection(rs[k]) in Projections(rs)
  {
    assert Projections(rs)[k] == ToProjection(rs[k]);
  }

  lemma FrontComesFirst(a: seq<Request>, n: nat, o: Projection) returns (i: nat, j: nat)
    requires AllAdmissible(a) && n < |a| && o in Projections(a) && o != ToProjection(a[n])
    requires Depth(o) == Depth(ToProjection(a[n]))
    ensures AllAdmissible(MovedToFront(a, n))
    ensures var w := SortByDepth(Projections(MovedToFront(a, n)));
            i < j < |w| && w[i] == ToProjection(a[n]) && w[j] == o
  {
    RestHasOther(a, n, o);
    var b := MovedToFront(a, n);
    var rest := Projections(b[1..]);
    assert Projections(b) == [ToProjection(a[n])] + rest;
    SortIsStable(rest, 0);
    SameMembers(SortByDepth(rest), rest);
    i, j := InsertBefore(ToProjection(a[n]), SortByDepth(rest), o);
  }

  lemma {:induction false} PermutedOrdered(a: seq<Request>, b: seq<Request>)
    requires Permuted(a, b) && Acceptable(a) && CleanRequests(a)
    ensures AllAdmissible(b) && Ordered(SortByDepth(Projections(b)))
  {
    PermutedView(a, b);
  }

  /** With the picked bind given first, another bind of its source and depth is picked instead. */
  lemma {:induction false} FrontIsNotPicked(a: seq<Request>, n: nat, o: Projection)
    requires Acceptable(a) && CleanRequests(a) && n < |a|
    requires o in Projections(a) && o != ToProjection(a[n])
    requires o.source == ToProjection(a[n]).source && Depth(o) == Depth(ToProjection(a[n]))
    ensures var b := MovedToFront(a, n);
            && Permuted(a, b) && AllAdmissible(b)
            && VirtualForHost(SortByDepth(Projections(b)), o.source) != ToProjection(a[n]).destination
  {
    FrontIsPermuted(a, n);
    PermutedOrdered(a, MovedToFront(a, n));
    var i, j := FrontComesFirst(a, n, o);
    FirstIsNotPicked(SortByDepth(Projections(MovedToFront(a, n))), ToProjection(a[n]), o, i, j);
  }

  lemma FirstIsNotPicked(w: View, p: Projection, o: Projection, i: nat, j: nat)
    requires Ordered(w) && i < j < |w| && w[i] == p && w[j] == o && p.source == o.source
    ensures VirtualForHost(w, o.source) != p.destination
  {
    EarlierIsNotPicked(w, i, j);
  }

  /**
    The reverse lookup is the same for every order of the bind arguments if and only if each
    source that is bound more than once has a single shallowest destination.
   */
  lemma {:induction false} ReverseIndependentExactly(a: seq<Request>)
    requires Acceptable(a) && CleanRequests(a)
    ensures ReverseIndependent(a) <==> ShallowestUnique(Projections(a))
  {
    SortedView(a);
    var v := SortByDepth(Projections(a));
    if ShallowestUnique(Projections(a)) {
      forall b: seq<Request>, h: Path ensures ReverseAlike(a, b, h) {
        if Permuted(a, b) && AllAdmissible(b) {
          PermutedView(a, b);
          PickByMembers(v, SortByDepth(Projections(b)), h);
        }
      }
    } else {
      var p, q :| p in v && q in v && p != q && p.source == q.source && Depth(p) == Depth(q)
                  && forall o :: o in v && o.source == p.source ==> Depth(o) >= Depth(p);
      SharedShallowestMatters(a, p, q);
    }
  }

  lemma {:induction false} SharedShallowestMatters(a: seq<Request>, p: Projection, q: Projection)
    requires Acceptable(a) && CleanRequests(a)
    requires p in Projections(a) && q in Projections(a) && p != q && p.source == q.source && Depth(p) == Depth(q)
    requires forall o :: o in Projections(a) && o.source == p.source ==> Depth(o) >= Depth(p)
    ensures !ReverseIndependent(a)
  {
    SortedView(a);
    var v := SortByDepth(Projections(a));
    var pick := v[DeepestSource(v, p.source).value];
    assert pick in v;
    PickIsShallowest(v, p.source, p);
    assert pick.source == p.source && Depth(pick) == Depth(p);
    var n :| 0 <= n < |a| && ToProjection(a[n]) == pick;
    FrontIsNotPicked(a, n, if pick == p then q else p);
    assert VirtualForHost(v, p.source) == pick.destination + p.source[|pick.source|..] == pick.destination;
    assert !ReverseAlike(a, MovedToFront(a, n), p.source);
  }

  /** Some destination strictly below that of `i` lies at or above `D_i ++ r`. */
  ghost predicate DestinationShadows(v: View, i: nat, r: Path)
    requires i < |v|
  {
    exists m :: 0 <= m < |v| && v[i].destination < v[m].destination && v[m].destination <= v[i].destination + r
  }

  /** Some source strictly below that of `j` lies at or above `S_j ++ r`. */
  ghost predicate SourceShadows(v: View, j: nat, r: Path)
    requires j < |v|
  {
    exists m :: 0 <= m < |v| && v[j].source < v[m].source && v[m].source <= v[j].source + r
  }

  /** Sources are distinct, and a source nested in another at `r` comes with a destination nested at or above `r`. */
  ghost predicate SourcesShadowed(v: View) {
    forall i, k :: 0 <= i < |v| && 0 <= k < |v| && i != k && v[i].source <= v[k].source ==>
                     v[i].source != v[k].source && DestinationShadows(v, i, v[k].source[|v[i].source|..])
  }

  ghost predicate LastOfSource(v: View, j: nat)
    requires j < |v|
  {
    forall k :: j < k < |v| ==> v[k].source != v[j].source
  }

  /** A destination nested in another at `r` comes with a source nested at or above `r`. */
  ghost predicate DestinationsShadowed(v: View) {
    forall j, k :: 0 <= j < |v| && 0 <= k < |v| && LastOfSource(v, j) && v[j].destination < v[k].destination ==>
                     SourceShadows(v, j, v[k].destination[|v[j].destination|..])
  }

  ghost predicate GuestRoundTrips(v: View) {
    forall p :: NormalPath(p) && Projects(v, p) ==> VirtualForHost(v, Resolve(v, p)) == p
  }

  ghost predicate UnderSource(v: View, h: Path) {
    exists k :: 0 <= k < |v| && v[k].source <= h
  }

  ghost predicate HostRoundTrips(v: View) {
    forall h :: NormalPath(h) && UnderSource(v, h) ==> Resolve(v, VirtualForHost(v, h)) == h
  }

  /** The reverse map must pick the same projection: any other one yields another guest path. */
  lemma {:induction false} GuestRoundTripAt(v: View, p: Path)
    requires Ordered(v) && Projects(v, p)
    ensures UnderSource(v, Resolve(v, p))
    ensures VirtualForHost(v, Resolve(v, p)) == p <==> DeepestSource(v, Resolve(v, p)) == ProjectionIndex(v, p)
  {
    var i := ProjectionIndex(v, p).value;
    var h := Resolve(v, p);
    assert v[i].source <= h && h[|v[i].source|..] == p[|v[i].destination|..];
    IndexIsLongest(v, p);
  }

  lemma {:induction false} HostRoundTripAt(v: View, h: Path)
    requires Ordered(v) && UnderSource(v, h)
    ensures Projects(v, VirtualForHost(v, h))
    ensures Resolve(v, VirtualForHost(v, h)) == h <==> ProjectionIndex(v, VirtualForHost(v, h)) == DeepestSource(v, h)
  {
    var j := DeepestSource(v, h).value;
    var p := VirtualForHost(v, h);
    ReservedBelow(v[j].destination, h[|v[j].source|..]);
    assert v[j].destination <= p && p[|v[j].destination|..] == h[|v[j].source|..];
    IndexIsLongest(v, p);
  }

  lemma PrefixesOf(a: Path, b: Path, p: Path)
    requires a <= p && b <= p && |a| <= |b|
    ensures a <= b && a + b[|a|..] == b
    ensures b[|a|..] <= p[|a|..]
  {
  }

  lemma SuffixBelow(a: Path, r: Path, p: Path)
    requires a <= p && r <= p[|a|..]
    ensures a + r <= p
  {
  }

  /** A shadowing destination would have been selected instead. */
  lemma SelectedIsNotShadowed(v: View, p: Path, r: Path)
    requires Ordered(v) && Projects(v, p)
    requires r <= p[|v[ProjectionIndex(v, p).value].destination|..]
    ensures !DestinationShadows(v, ProjectionIndex(v, p).value, r)
  {
    var i := ProjectionIndex(v, p).value;
    SuffixBelow(v[i].destination, r, p);
    IndexIsLongest(v, p);
  }

  lemma {:induction false} DeepestIsNotShadowed(v: View, h: Path, r: Path)
    requires UnderSource(v, h)
    requires r <= h[|v[DeepestSource(v, h).value].source|..]
    ensures !SourceShadows(v, DeepestSource(v, h).value, r)
    ensures LastOfSource(v, DeepestSource(v, h).value)
  {
    var j := DeepestSource(v, h).value;
    SuffixBelow(v[j].source, r, h);
  }

  lemma ShadowsSuffice(v: View, p: Path)
    requires Ordered(v) && SourcesShadowed(v) && Projects(v, p)
    ensures VirtualForHost(v, Resolve(v, p)) == p
  {
    GuestRoundTripAt(v, p);
    var h := Resolve(v, p);
    var i, j := ProjectionIndex(v, p).value, DeepestSource(v, h).value;
    if i != j {
      assert v[i].source <= h;
      PrefixesOf(v[i].source, v[j].source, h);
      SelectedIsNotShadowed(v, p, v[j].source[|v[i].source|..]);
    }
  }

  /** When nothing shadows it, `D_a ++ r` is resolved by `a`. */
  lemma UnshadowedSelects(v: View, a: nat, r: Path)
    requires Ordered(v) && a < |v| && !DestinationShadows(v, a, r)
    ensures ProjectionIndex(v, v[a].destination + r) == Some(a)
    ensures Resolve(v, v[a].destination + r) == v[a].source + r
  {
    var p := v[a].destination + r;
    ReservedBelow(v[a].destination, r);
    assert v[a].destination <= p && p[|v[a].destination|..] == r;
    IndexIsLongest(v, p);
    var i := ProjectionIndex(v, p).value;
    if i != a {
      PrefixesOf(v[a].destination, v[i].destination, p);
    }
  }

  lemma NormalAppend(a: Path, b: Path, c: Path)
    requires NormalPath(b) && NormalPath(c) && a <= b
    ensures NormalPath(c + b[|a|..])
  {
  }

  lemma GuestWitness(v: View, a: nat, b: nat, r: Path, p: Path)
    requires Ordered(v) && a < |v| && b < |v| && a != b
    requires v[b].source == v[a].source + r && p == v[a].destination + r
    requires !DestinationShadows(v, a, r)
    requires r == [] ==> a < b
    ensures Projects(v, p) && VirtualForHost(v, Resolve(v, p)) != p
  {
    UnshadowedSelects(v, a, r);
    GuestRoundTripAt(v, p);
  }

  lemma GuestRoundTripNeeds(v: View, a: nat, b: nat)
    requires ValidView(v) && a < |v| && b < |v| && a != b && v[a].source <= v[b].source
    requires !DestinationShadows(v, a, v[b].source[|v[a].source|..])
    requires v[a].source == v[b].source ==> a < b
    ensures !GuestRoundTrips(v)
  {
    var r := v[b].source[|v[a].source|..];
    assert v[b].source == v[a].source + r;
    GuestWitness(v, a, b, r, v[a].destination + r);
    NormalAppend(v[a].source, v[b].source, v[a].destination);
    GuestRefuted(v, v[a].destination + r);
  }

  lemma GuestRefuted(v: View, p: Path)
    requires NormalPath(p) && Projects(v, p) && VirtualForHost(v, Resolve(v, p)) != p
    ensures !GuestRoundTrips(v)
  {
  }

  lemma HostRefuted(v: View, h: Path)
    requires NormalPath(h) && UnderSource(v, h) && Resolve(v, VirtualForHost(v, h)) != h
    ensures !HostRoundTrips(v)
  {
  }

  lemma NothingShadowsItself(v: View, a: nat)
    requires a < |v|
    ensures !DestinationShadows(v, a, []) && !SourceShadows(v, a, [])
  {
  }

  /**
    Guest to host to guest is the identity on every projected path exactly when the
    sources are distinct and every nested source is hidden by a nested destination.
   */
  lemma GuestRoundTripExactly(v: View)
    requires ValidView(v)
    ensures GuestRoundTrips(v) <==> SourcesShadowed(v)
  {
    if SourcesShadowed(v) {
      forall p | NormalPath(p) && Projects(v, p) ensures VirtualForHost(v, Resolve(v, p)) == p {
        ShadowsSuffice(v, p);
      }
    } else {
      var i, k :| 0 <= i < |v| && 0 <= k < |v| && i != k && v[i].source <= v[k].source
                  && !(v[i].source != v[k].source && DestinationShadows(v, i, v[k].source[|v[i].source|..]));
      if v[i].source == v[k].source {
        var a, b := if i < k then i else k, if i < k then k else i;
        assert v[b].source[|v[a].source|..] == [];
        NothingShadowsItself(v, a);
        GuestRoundTripNeeds(v, a, b);
      } else {
        GuestRoundTripNeeds(v, i, k);
      }
    }
  }

  /** When no source shadows it, the last projection of its source takes `S_j ++ r`. */
  lemma {:induction false} UnshadowedReverse(v: View, j: nat, r: Path)
    requires j < |v| && LastOfSource(v, j) && !SourceShadows(v, j, r)
    ensures UnderSource(v, v[j].source + r)
    ensures DeepestSource(v, v[j].source + r) == Some(j)
    ensures VirtualForHost(v, v[j].source + r) == v[j].destination + r
  {
    var h := v[j].source + r;
    assert v[j].source <= h && h[|v[j].source|..] == r;
    var d := DeepestSource(v, h).value;
    if d != j {
      PrefixesOf(v[j].source, v[d].source, h);
    }
  }

  lemma HostWitness(v: View, j: nat, k: nat, r: Path, h: Path)
    requires Ordered(v) && j < |v| && k < |v| && LastOfSource(v, j) && r != []
    requires v[k].destination == v[j].destination + r && h == v[j].source + r
    requires !SourceShadows(v, j, r)
    ensures UnderSource(v, h) && Resolve(v, VirtualForHost(v, h)) != h
  {
    UnshadowedReverse(v, j, r);
    HostRoundTripAt(v, h);
    IndexIsLongest(v, v[k].destination);
  }

  lemma HostRoundTripNeeds(v: View, j: nat, k: nat)
    requires ValidView(v) && j < |v| && k < |v| && LastOfSource(v, j) && v[j].destination < v[k].destination
    requires !SourceShadows(v, j, v[k].destination[|v[j].destination|..])
    ensures !HostRoundTrips(v)
  {
    var r := v[k].destination[|v[j].destination|..];
    assert v[k].destination == v[j].destination + r;
    HostWitness(v, j, k, r, v[j].source + r);
    NormalAppend(v[j].destination, v[k].destination, v[j].source);
    HostRefuted(v, v[j].source + r);
  }

  lemma SourceShadowsSuffice(v: View, h: Path)
    requires Ordered(v) && DestinationsShadowed(v) && UnderSource(v, h)
    ensures Resolve(v, VirtualForHost(v, h)) == h
  {
    HostRoundTripAt(v, h);
    var p := VirtualForHost(v, h);
    var j, i := DeepestSource(v, h).value, ProjectionIndex(v, p).value;
    if i != j {
      IndexIsLongest(v, p);
      assert v[j].destination <= p && p[|v[j].destination|..] == h[|v[j].source|..];
      PrefixesOf(v[j].destination, v[i].destination, p);
      assert v[j].destination < v[i].destination;
      DeepestIsNotShadowed(v, h, v[i].destination[|v[j].destination|..]);
    }
  }

  /**
    Host to guest to host is the identity on every path under a source exactly when
    every nested destination comes with a nested source.
   */
  lemma HostRoundTripExactly(v: View)
    requires ValidView(v)
    ensures HostRoundTrips(v) <==> DestinationsShadowed(v)
  {
    if DestinationsShadowed(v) {
      forall h | NormalPath(h) && UnderSource(v, h) ensures Resolve(v, VirtualForHost(v, h)) == h {
        SourceShadowsSuffice(v, h);
      }
    } else {
      var j, k :| 0 <= j < |v| && 0 <= k < |v| && LastOfSource(v, j) && v[j].destination < v[k].destination
                  && !SourceShadows(v, j, v[k].destination[|v[j].destination|..]);
      HostRoundTripNeeds(v, j, k);
    }
  }

  /** `D_k = D_i ++ r` exactly when `S_k = S_i ++ r`. */
  ghost predicate NestAlike(v: View) {
    forall i, k :: 0 <= i < |v| && 0 <= k < |v| ==>
                     && (v[i].destination <= v[k].destination <==> v[i].source <= v[k].source)
                     && (v[i].destination <= v[k].destination ==>
                           v[k].destination[|v[i].destination|..] == v[k].source[|v[i].source|..])
  }

  /** Destinations and sources that nest alike round-trip both ways. */
  lemma NestAlikeRoundTrips(v: View)
    requires ValidView(v) && NestAlike(v)
    ensures GuestRoundTrips(v) && HostRoundTrips(v)
  {
    forall i, k | 0 <= i < |v| && 0 <= k < |v| && i != k && v[i].source <= v[k].source
      ensures v[i].source != v[k].source && DestinationShadows(v, i, v[k].source[|v[i].source|..])
    {
      NestedTogether(v, i, k);
    }
    GuestRoundTripExactly(v);
    forall j, k | 0 <= j < |v| && 0 <= k < |v| && LastOfSource(v, j) && v[j].destination < v[k].destination
      ensures SourceShadows(v, j, v[k].destination[|v[j].destination|..])
    {
      NestedTogether(v, j, k);
    }
    HostRoundTripExactly(v);
  }

  lemma NestedTogether(v: View, i: nat, k: nat)
    requires Ordered(v) && NestAlike(v) && i < |v| && k < |v| && i != k
    requires v[i].source <= v[k].source || v[i].destination <= v[k].destination
    ensures v[i].source < v[k].source && v[i].destination < v[k].destination
    ensures v[i].destination + v[k].source[|v[i].source|..] == v[k].destination
    ensures v[i].source + v[k].destination[|v[i].destination|..] == v[k].source
  {
    assert v[i].destination <= v[k].destination && v[i].source <= v[k].source;
    var r := v[k].source[|v[i].source|..];
    assert v[i].destination + r == v[k].destination;
    assert v[i].destination != v[k].destination;
  }
}
