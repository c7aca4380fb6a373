/**
  Signal forwarding of linux/mod.rs: the dispositions of a list of signals are replaced
  one by one, remembered, and put back in reverse order.
 */
module Signals {
  import opened Wrappers

  /** A disposition: the forwarding handler, or one the process had before. */
  datatype Action = Forward | Inherited(id: int)

  type Table = map<int, Action>

  datatype Saved = Saved(signal: int, action: Action)

  function Replace(t: Table, signals: seq<int>): Table
    decreases |signals|
  {
    if signals == [] then t else Replace(t[signals[0] := Forward], signals[1..])
  }

  /** What each replacement found, in installation order; a repeated signal finds the forwarder. */
  function Remember(t: Table, signals: seq<int>): (r: seq<Saved>)
    requires forall i :: 0 <= i < |signals| ==> signals[i] in t
    ensures |r| == |signals|
    decreases |signals|
  {
    if signals == [] then [] else [Saved(signals[0], t[signals[0]])] + Remember(t[signals[0] := Forward], signals[1..])
  }

  /** Puts the remembered dispositions back, last first. */
  function Restore(t: Table, previous: seq<Saved>): Table
    decreases |previous|
  {
    if previous == [] then t
    else
      var last := previous[|previous| - 1];
      Restore(t[last.signal := last.action], previous[..|previous| - 1])
  }

  lemma {:induction false} ReplaceSnoc(t: Table, signals: seq<int>, s: int)
    requires forall i :: 0 <= i < |signals| ==> signals[i] in t
    requires s in t
    ensures Replace(t, signals + [s]) == Replace(t, signals)[s := Forward]
    ensures s in Replace(t, signals)
    ensures Remember(t, signals + [s]) == Remember(t, signals) + [Saved(s, Replace(t, signals)[s])]
    decreases |signals|
  {
    if signals == [] {
      assert (signals + [s])[1..] == [];
    } else {
      assert (signals + [s])[0] == signals[0] && (signals + [s])[1..] == signals[1..] + [s];
      ReplaceSnoc(t[signals[0] := Forward], signals[1..], s);
    }
  }

  /** Restoring what was remembered gives back the original table, whatever repeats in the list. */
  lemma {:induction false} RestoreUndoesReplace(t: Table, signals: seq<int>)
    requires forall i :: 0 <= i < |signals| ==> signals[i] in t
    ensures Restore(Replace(t, signals), Remember(t, signals)) == t
    decreases |signals|
  {
    if signals != [] {
      var init, s := signals[..|signals| - 1], signals[|signals| - 1];
      assert signals == init + [s];
      ReplaceSnoc(t, init, s);
      RestoreUndoesReplace(t, init);
      var previous := Remember(t, signals);
      assert previous[..|previous| - 1] == Remember(t, init);
      var u := Replace(t, init);
      assert u[s := Forward][s := u[s]] == u;
    }
  }

  class SignalForwarding {
    var table: Table
    var target: int
    var previous: seq<Saved>

    constructor (table: Table)
      ensures this.table == table && target == 0 && previous == []
    {
      this.table, target, previous := table, 0, [];
    }

    method PutBack()
      modifies this`table
      ensures table == Restore(old(table), previous)
    {
      var i := |previous|;
      assert previous[..i] == previous;
      while i > 0
        invariant 0 <= i <= |previous|
        invariant Restore(table, previous[..i]) == Restore(old(table), previous)
      {
        i := i - 1;
        assert previous[..i + 1][..i] == previous[..i];
        table := table[previous[i].signal := previous[i].action];
      }
    }

    /** `failAt` is the position at which the kernel refuses a disposition, if any. */
    method Install(child: int, signals: seq<int>, failAt: Option<nat>) returns (ok: bool)
      requires forall i :: 0 <= i < |signals| ==> signals[i] in table
      modifies this
      ensures ok <==> failAt.None? || failAt.value >= |signals|
      ensures ok ==> target == child && table == Replace(old(table), signals)
                     && previous == Remember(old(table), signals)
      ensures !ok ==> target == 0 && table == old(table)
    {
      target := child;
      previous := [];
      ghost var before := table;
      for i := 0 to |signals|
        invariant failAt.Some? ==> failAt.value >= i
        invariant target == child && before == old(table)
        invariant forall j :: 0 <= j < |signals| ==> signals[j] in before
        invariant table == Replace(before, signals[..i]) && previous == Remember(before, signals[..i])
      {
        if failAt == Some(i) {
          PutBack();
          RestoreUndoesReplace(before, signals[..i]);
          target := 0;
          return false;
        }
        assert signals[..i + 1] == signals[..i] + [signals[i]];
        ReplaceSnoc(before, signals[..i], signals[i]);
        previous := previous + [Saved(signals[i], table[signals[i]])];
        table := table[signals[i] := Forward];
      }
      assert signals[..|signals|] == signals;
      return true;
    }

    method Drop()
      modifies this
      ensures target == 0 && table == Restore(old(table), old(previous)) && previous == old(previous)
    {
      target := 0;
      PutBack();
    }

    /** One supervised attempt: whether installing fails or not, the process ends as it began. */
    method InstallAndDrop(child: int, signals: seq<int>, failAt: Option<nat>)
      requires forall i :: 0 <= i < |signals| ==> signals[i] in table
      modifies this
      ensures target == 0 && table == old(table)
    {
      ghost var before := table;
      var ok := Install(child, signals, failAt);
      if ok {
        RestoreUndoesReplace(before, signals);
        Drop();
      }
    }
  }
}
