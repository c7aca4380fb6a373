/**
  What must have gone right before the command is handed to the child. The calls of the guest
  probe and every mishap are read off the steps of a run, not off the messages of the protocol.
 */
module Commitment {
  import opened Errno
  import opened Paths
  import opened Startup

  // ----- The answers to the probe -----

  /** What the step returns to a child that waits on a call of its probe, if anything. */
  function ProbeReturn(w: World, s: Step): seq<bool> {
    if !w.child.ProbeBlocked? then []
    else match s
      case Answer(ok) => [ok]
      case KernelFails => [false]
      case _ => []
  }

  /** How the calls of the probe returned over a run, in order. */
  function ProbeReturns(w: World, steps: seq<Step>): seq<bool>
    decreases |steps|
  {
    if steps == [] then [] else ProbeReturn(w, steps[0]) + ProbeReturns(Next(w, steps[0]), steps[1..])
  }

  /** The child has not begun its probe. */
  predicate BeforeProbe(c: Child) {
    c.NotForked? || SettingUp(c) || c.AwaitGo1?
  }

  /** The child has reported a probe without error. */
  predicate AfterProbe(c: Child) {
    c.AwaitGo2? || PassedGo2(c)
  }

  /** How far the child is, when the calls of its probe have returned `past` so far. */
  predicate ProbeInvariant(w: World, past: seq<bool>) {
    && (BeforeProbe(w.child) ==> past == [])
    && (w.child.Probing? ==>
          (w.child.left == 2 && past == []) || (w.child.left == 1 && past == [true])
          || (w.child.left == 0 && past == [true, true]))
    && (w.child.ProbeBlocked? ==>
          (w.child.left == 1 && past == []) || (w.child.left == 0 && past == [true]))
    && (w.child == Reporting(0) || AfterProbe(w.child) ==> past == [true, true])
    && (w.child.Reporting? && w.child.errno != 0 ==> false in past)
    && (ProbeResult(0) in w.sent ==> past == [true, true])
    && (false in past ==> w.child.Reporting? || w.child.Exiting? || w.child.Dead?)
  }

  lemma ProbeStepKeeps(w: World, ok: bool, past: seq<bool>)
    requires Inv(w) && ProbeInvariant(w, past) && OnProbe(w.child)
    ensures ProbeInvariant(ProbeNext(w, ok), past)
  {
  }

  lemma SetupStepKeeps(w: World, ok: bool, past: seq<bool>)
    requires Inv(w) && ProbeInvariant(w, past) && SettingUp(w.child)
    ensures ProbeInvariant(SetupNext(w, ok), past)
  {
  }

  lemma CommandStepKeeps(w: World, ok: bool, past: seq<bool>)
    requires Inv(w) && ProbeInvariant(w, past) && OnCommand(w.child)
    ensures ProbeInvariant(CommandNext(w, ok), past)
  {
  }

  lemma ReturnKeeps(w: World, ok: bool, past: seq<bool>)
    requires Inv(w) && ProbeInvariant(w, past) && Blocked(w.child)
    ensures ProbeInvariant(Unblock(w, ok), if w.child.ProbeBlocked? then past + [ok] else past)
  {
  }

  /** The parent changes neither what the child wrote nor, once it is forked, where it is. */
  predicate LeavesChild(w: World, w': World) {
    w'.sent == w.sent && (w'.child == w.child || (w.child.NotForked? && w'.child.InstallingFilter?))
  }

  lemma OpeningLeavesChild(w: World, ok: bool)
    requires BeforeFork(w.parent) && w.child.NotForked?
    ensures LeavesChild(w, OpeningNext(w, ok))
  {
  }

  lemma HandshakeLeavesChild(w: World, ok: bool)
    requires Handshaking(w.parent)
    ensures LeavesChild(w, HandshakeNext(w, ok))
  {
  }

  lemma LaterLeavesChild(w: World, ok: bool)
    ensures LeavesChild(w, DecidingNext(w, ok)) && LeavesChild(w, EndingNext(w))
  {
  }

  lemma ParentLeavesChild(w: World, ok: bool)
    requires BeforeFork(w.parent) ==> w.child.NotForked?
    ensures LeavesChild(w, ParentNext(w, ok))
  {
    if BeforeFork(w.parent) {
      OpeningLeavesChild(w, ok);
    } else if Handshaking(w.parent) {
      HandshakeLeavesChild(w, ok);
    } else {
      LaterLeavesChild(w, ok);
    }
  }

  lemma ParentStepKeeps(w: World, ok: bool, past: seq<bool>)
    requires Inv(w) && ProbeInvariant(w, past)
    ensures ProbeInvariant(ParentNext(w, ok), past)
  {
    ParentLeavesChild(w, ok);
  }

  lemma StepKeepsProbe(w: World, s: Step, past: seq<bool>)
    requires Inv(w) && ProbeInvariant(w, past) && Enabled(w, s)
    ensures ProbeInvariant(Next(w, s), past + ProbeReturn(w, s))
  {
    assert past + [] == past;
    match s {
      case ParentStep(ok) => ParentStepKeeps(w, ok, past);
      case ChildStep(ok) =>
        if SettingUp(w.child) {
          SetupStepKeeps(w, ok, past);
        } else if OnProbe(w.child) {
          ProbeStepKeeps(w, ok, past);
        } else {
          CommandStepKeeps(w, ok, past);
        }
      case Answer(ok) => ReturnKeeps(w, ok, past);
      case KernelFails => ReturnKeeps(w, false, past);
      case _ =>
    }
  }

  lemma {:induction false} ProbeReturnsFrom(w: World, steps: seq<Step>, past: seq<bool>)
    requires steps != []
    ensures past + ProbeReturns(w, steps) ==
            past + ProbeReturn(w, steps[0]) + ProbeReturns(Next(w, steps[0]), steps[1..])
  {
  }

  lemma {:induction false} RunKeepsProbe(w: World, steps: seq<Step>, past: seq<bool>)
    requires Inv(w) && ProbeInvariant(w, past) && IsRun(w, steps)
    ensures ProbeInvariant(After(w, steps), past + ProbeReturns(w, steps))
    decreases |steps|
  {
    if steps == [] {
      assert past + [] == past;
    } else {
      StepKeepsInv(w, steps[0]);
      StepKeepsProbe(w, steps[0], past);
      ProbeReturnsFrom(w, steps, past);
      RunKeepsProbe(Next(w, steps[0]), steps[1..], past + ProbeReturn(w, steps[0]));
    }
  }

  /**
    In every interleaving: the child reports its probe without error, the parent commits to it,
    and the child gives the command to exec, only after both calls of the probe returned success.
   */
  lemma {:induction false} CommitMeansProbed(start: World, steps: seq<Step>)
    requires Fresh(start) && IsRun(start, steps)
    requires var w := After(start, steps);
             ProbeResult(0) in w.sent || w.go == 2 || PassedGo2(w.child) || w.commands.execs != []
    ensures ProbeReturns(start, steps) == [true, true]
  {
    FreshInv(start);
    RunKeepsProbe(start, steps, []);
    ReachableInv(start, steps);
    assert [] + ProbeReturns(start, steps) == ProbeReturns(start, steps);
  }

  // ----- Mishaps before the commitment -----

  /** Something fails or times out, or the child dies, before it has reported its probe without error. */
  predicate Mishap(w: World, s: Step) {
    match s
    case ParentStep(ok) =>
      !ok && (w.parent.Opening? || w.parent.Reopening? || w.parent.Pairing? || w.parent.Forking?
              || Handshaking(w.parent) || w.parent.AwaitProbe? || w.parent.SendGo2?)
    case ChildStep(ok) =>
      !ok && (w.child.InstallingFilter? || w.child.ReportingFailure? || w.child.SendingListener?
              || w.child.AwaitGo1? || w.child.Reporting?)
    case Answer(ok) => !ok && w.child.ProbeBlocked?
    case KernelFails => w.child.ProbeBlocked?
    case ChildKilled => SettingUp(w.child) || (OnProbe(w.child) && !w.child.AwaitGo2?) || w.child.ProbeBlocked?
    case ParentKilled => w.go <= 1
    case _ => false
  }

  /** The command can no longer be handed to the child. */
  predicate Spoiled(w: World) {
    && w.go <= 1
    && (|| GivingUp(w.parent) || w.parent.Gone?
        || (ProbeResult(0) !in w.sent
            && (w.child.ReportingFailure? || (w.child.Reporting? && w.child.errno != 0)
                || w.child.Exiting? || w.child.Dead?)))
  }

  lemma ParentMishapSpoils(w: World)
    requires Inv(w) && Mishap(w, ParentStep(false)) && Enabled(w, ParentStep(false))
    ensures Spoiled(ParentNext(w, false))
  {
  }

  lemma ChildMishapSpoils(w: World, s: Step)
    requires Inv(w) && Mishap(w, s) && Enabled(w, s) && !s.ParentStep?
    ensures Spoiled(Next(w, s))
  {
  }

  lemma SpoiledHandshake(w: World, ok: bool)
    requires Inv(w) && Spoiled(w) && Handshaking(w.parent)
    ensures Spoiled(HandshakeNext(w, ok))
  {
  }

  lemma SpoiledDeciding(w: World, ok: bool)
    requires Inv(w) && Spoiled(w) && Deciding(w.parent) && Enabled(w, ParentStep(ok))
    ensures Spoiled(DecidingNext(w, ok))
  {
  }

  lemma SpoiledEnding(w: World)
    requires Spoiled(w) && Ending(w.parent) && !w.parent.Finishing?
    ensures Spoiled(EndingNext(w))
  {
  }

  lemma SpoiledIsForked(w: World)
    requires Inv(w) && Spoiled(w)
    ensures !BeforeFork(w.parent) && !w.parent.Finishing?
  {
  }

  lemma SpoiledParent(w: World, ok: bool)
    requires Inv(w) && Spoiled(w) && Enabled(w, ParentStep(ok))
    ensures Spoiled(ParentNext(w, ok))
  {
    SpoiledIsForked(w);
    if Handshaking(w.parent) {
      SpoiledHandshake(w, ok);
    } else if Deciding(w.parent) {
      SpoiledDeciding(w, ok);
    } else {
      SpoiledEnding(w);
    }
  }

  lemma SpoiledOtherwise(w: World, s: Step)
    requires Inv(w) && Spoiled(w) && Enabled(w, s) && !s.ParentStep?
    ensures Spoiled(Next(w, s))
  {
  }

  lemma {:induction false} SpoiledForGood(w: World, steps: seq<Step>)
    requires Inv(w) && Spoiled(w) && IsRun(w, steps)
    ensures Inv(After(w, steps)) && Spoiled(After(w, steps))
    decreases |steps|
  {
    if steps != [] {
      var s := steps[0];
      StepKeepsInv(w, s);
      if s.ParentStep? {
        SpoiledParent(w, s.ok);
      } else {
        SpoiledOtherwise(w, s);
      }
      SpoiledForGood(Next(w, s), steps[1..]);
    }
  }

  /** What cannot be handed over never was. */
  lemma SpoiledStartsNothing(w: World)
    requires Inv(w) && Spoiled(w)
    ensures w.go <= 1 && w.commands.execs == [] && !PassedGo2(w.child)
    ensures Ended(w.parent) ==> w.parent.PassedThrough? || w.parent.Gone?
  {
  }

  /**
    Once anything went wrong before the child reported a probe without error, or before the parent
    committed to it, no continuation has a second go byte or gives the command to exec in the
    child, and every one that ends does so in passthrough or with the parent killed.
   */
  lemma {:induction false} NoCommitAfterMishap(start: World, before: seq<Step>, s: Step, later: seq<Step>)
    requires Fresh(start) && IsRun(start, before + ([s] + later)) && Mishap(After(start, before), s)
    ensures var w := After(start, before + ([s] + later));
            && w.go <= 1 && w.commands.execs == [] && !PassedGo2(w.child)
            && (Ended(w.parent) ==> w.parent.PassedThrough? || w.parent.Gone?)
  {
    RunSplit(start, before, [s] + later);
    ReachableInv(start, before);
    var w := After(start, before);
    assert ([s] + later)[0] == s && ([s] + later)[1..] == later;
    StepKeepsInv(w, s);
    if s.ParentStep? {
      ParentMishapSpoils(w);
    } else {
      ChildMishapSpoils(w, s);
    }
    SpoiledForGood(Next(w, s), later);
    SpoiledStartsNothing(After(Next(w, s), later));
  }

  lemma {:induction false} FalseComesFrom(w: World, steps: seq<Step>) returns (k: nat)
    requires IsRun(w, steps) && false in ProbeReturns(w, steps)
    ensures k < |steps| && Mishap(After(w, steps[..k]), steps[k])
    decreases |steps|
  {
    if false in ProbeReturn(w, steps[0]) {
      k := 0;
      assert steps[..0] == [];
    } else {
      k := FalseComesFrom(Next(w, steps[0]), steps[1..]);
      assert steps[..k + 1][1..] == steps[1..][..k];
      k := k + 1;
    }
  }

  /**
    After any failing answer to a call of the probe the command is never handed to the child, and
    a run that ends does so in passthrough or with the parent killed.
   */
  lemma {:induction false} FailedProbeNeverCommits(start: World, steps: seq<Step>)
    requires Fresh(start) && IsRun(start, steps) && false in ProbeReturns(start, steps)
    ensures var w := After(start, steps);
            && ProbeResult(0) !in w.sent && w.go <= 1 && w.commands.execs == [] && !PassedGo2(w.child)
            && (Ended(w.parent) ==> w.parent.PassedThrough? || w.parent.Gone?)
  {
    var k := FalseComesFrom(start, steps);
    assert steps == steps[..k] + ([steps[k]] + steps[k + 1..]);
    NoCommitAfterMishap(start, steps[..k], steps[k], steps[k + 1..]);
    if ProbeResult(0) in After(start, steps).sent {
      CommitMeansProbed(start, steps);
    }
  }

  // ----- What an attempt leaves behind -----

  predicate Unsupervised(p: Parent) {
    BeforeFork(p) || p.AwaitSetup? || p.Spawning? || p == Killing(false) || p == Reaping(false)
  }

  /** Where the parent has stopped forwarding, and where the supervisor thread cannot be running. */
  predicate TidyInvariant(w: World) {
    && (GivingUp(w.parent) || w.parent.Finishing? || Ended(w.parent) ==> !w.forwarding)
    && (Unsupervised(w.parent) ==> w.thread.NotStarted?)
    && (w.parent.Unavailable? || w.parent.PassedThrough? || w.parent.Exited? || w.parent.Gone? ==> !w.thread.Serving?)
    && (BeforeFork(w.parent) || w.parent.AwaitSetup? || w.parent.Spawning? || w.parent.Installing? ==> !w.forwarding)
  }

  lemma OpeningKeepsTidy(w: World, ok: bool)
    requires TidyInvariant(w) && BeforeFork(w.parent)
    ensures TidyInvariant(OpeningNext(w, ok))
  {
  }

  lemma HandshakeKeepsTidy(w: World, ok: bool)
    requires TidyInvariant(w) && Handshaking(w.parent)
    ensures TidyInvariant(HandshakeNext(w, ok))
  {
  }

  lemma DecidingKeepsTidy(w: World, ok: bool)
    requires TidyInvariant(w) && Deciding(w.parent)
    ensures TidyInvariant(DecidingNext(w, ok))
  {
  }

  lemma EndingKeepsTidy(w: World)
    requires TidyInvariant(w) && Ending(w.parent) && Enabled(w, ParentStep(true))
    ensures TidyInvariant(EndingNext(w))
  {
  }

  lemma ParentKeepsTidy(w: World, ok: bool)
    requires TidyInvariant(w) && Enabled(w, ParentStep(ok))
    ensures TidyInvariant(ParentNext(w, ok))
  {
    if BeforeFork(w.parent) {
      OpeningKeepsTidy(w, ok);
    } else if Handshaking(w.parent) {
      HandshakeKeepsTidy(w, ok);
    } else if Deciding(w.parent) {
      DecidingKeepsTidy(w, ok);
    } else {
      EndingKeepsTidy(w);
    }
  }

  /** Neither the child nor an answer to it touches the parent's side. */
  predicate SameParent(w: World, w': World) {
    w'.parent == w.parent && w'.thread == w.thread && w'.forwarding == w.forwarding
  }

  lemma SetupSameParent(w: World, ok: bool)
    ensures SameParent(w, SetupNext(w, ok)) && SameParent(w, CommandNext(w, ok))
  {
  }

  lemma ProbeSameParent(w: World, ok: bool)
    ensures SameParent(w, ProbeNext(w, ok)) && SameParent(w, Unblock(w, ok))
  {
  }

  lemma ChildLeavesParent(w: World, s: Step)
    requires s.ChildStep? || s.Answer? || s.KernelFails?
    ensures SameParent(w, Next(w, s))
  {
    var ok := if s.KernelFails? then false else s.ok;
    SetupSameParent(w, ok);
    ProbeSameParent(w, ok);
  }

  lemma ChildKeepsTidy(w: World, s: Step)
    requires TidyInvariant(w) && (s.ChildStep? || s.Answer? || s.KernelFails?)
    ensures TidyInvariant(Next(w, s))
  {
    ChildLeavesParent(w, s);
  }

  lemma FaultKeepsTidy(w: World, s: Step)
    requires TidyInvariant(w) && Enabled(w, s)
    requires s.ThreadFails? || s.ThreadQuits? || s.ChildKilled? || s.ParentKilled?
    ensures TidyInvariant(Next(w, s))
  {
  }

  lemma {:induction false} RunKeepsTidy(w: World, steps: seq<Step>)
    requires Inv(w) && TidyInvariant(w) && IsRun(w, steps)
    ensures TidyInvariant(After(w, steps))
    decreases |steps|
  {
    if steps != [] {
      var s := steps[0];
      StepKeepsInv(w, s);
      match s {
        case ParentStep(ok) => ParentKeepsTidy(w, ok);
        case ChildStep(_) => ChildKeepsTidy(w, s);
        case Answer(_) => ChildKeepsTidy(w, s);
        case KernelFails => ChildKeepsTidy(w, s);
        case _ => FaultKeepsTidy(w, s);
      }
      RunKeepsTidy(Next(w, s), steps[1..]);
    }
  }

  /**
    However an attempt ends, signals are no longer forwarded; and unless waiting for the command
    failed, the supervisor thread was never started or has stopped.
   */
  lemma {:induction false} NothingLeftRunning(start: World, steps: seq<Step>)
    requires Fresh(start) && IsRun(start, steps)
    ensures var w := After(start, steps);
            && (Ended(w.parent) ==> !w.forwarding)
            && (Ended(w.parent) && !w.parent.Failed? ==> !w.thread.Serving?)
  {
    FreshInv(start);
    RunKeepsTidy(start, steps);
  }

  // ----- A failed probe occurs -----

  /** Reached from `start` by a run whose probe calls returned `answers`. */
  ghost predicate ReachedWith(start: World, w: World, answers: seq<bool>) {
    exists steps :: IsRun(start, steps) && After(start, steps) == w && ProbeReturns(start, steps) == answers
  }

  lemma {:induction false} ExtendReturns(w: World, steps: seq<Step>, s: Step)
    ensures ProbeReturns(w, steps + [s]) == ProbeReturns(w, steps) + ProbeReturn(After(w, steps), s)
    decreases |steps|
  {
    if steps == [] {
      assert (steps + [s])[1..] == [];
    } else {
      assert (steps + [s])[0] == steps[0] && (steps + [s])[1..] == steps[1..] + [s];
      ExtendReturns(Next(w, steps[0]), steps[1..], s);
    }
  }

  lemma TakeOne(start: World, w: World, answers: seq<bool>, s: Step) returns (w': World, answers': seq<bool>)
    requires ReachedWith(start, w, answers) && Enabled(w, s)
    ensures ReachedWith(start, w', answers') && w' == Next(w, s) && answers' == answers + ProbeReturn(w, s)
  {
    var steps :| IsRun(start, steps) && After(start, steps) == w && ProbeReturns(start, steps) == answers;
    ExtendFrom(start, steps, s);
    ExtendReturns(start, steps, s);
    w', answers' := Next(w, s), answers + ProbeReturn(w, s);
  }

  /** A child that has not begun its probe has had no answer to it. */
  lemma {:induction false} NotYetProbed(start: World, w: World)
    requires Fresh(start) && Reachable(start, w) && BeforeProbe(w.child)
    ensures ReachedWith(start, w, [])
  {
    var steps :| IsRun(start, steps) && After(start, steps) == w;
    FreshInv(start);
    RunKeepsProbe(start, steps, []);
    assert [] + ProbeReturns(start, steps) == ProbeReturns(start, steps);
  }

  /** The probe is at its second call, the open. */
  lemma SecondCallOccurs(c: Command, cwd: Path)
    requires Unconfigured(c)
    ensures ReachedWith(Initial(c, cwd), World(AwaitProbe, ProbeBlocked(0), Serving, [Ready], 1, 0, true, 1, false,
                                               false, false, Forked(c, cwd, [])), [true])
  {
    HandshakeOccurs(c, cwd);
    var w := World(AwaitProbe, AwaitGo1, Serving, [Ready], 1, 1, true, 1, false, false, false, Forked(c, cwd, []));
    NotYetProbed(Initial(c, cwd), w);
    var r: seq<bool>;
    w, r := TakeOne(Initial(c, cwd), w, [], ChildStep(true));
    w, r := TakeOne(Initial(c, cwd), w, r, ChildStep(true));
    w, r := TakeOne(Initial(c, cwd), w, r, Answer(true));
    w, r := TakeOne(Initial(c, cwd), w, r, ChildStep(true));
  }

  /** It fails, and the child reports that and ends. */
  lemma FailureReported(c: Command, cwd: Path)
    requires Unconfigured(c)
    ensures ReachedWith(Initial(c, cwd), World(AwaitProbe, Dead, Serving, [Ready, ProbeResult(EIO)], 1, 0, true, 1,
                                               false, false, false, Forked(c, cwd, [])), [true, false])
  {
    SecondCallOccurs(c, cwd);
    var w := World(AwaitProbe, ProbeBlocked(0), Serving, [Ready], 1, 0, true, 1, false, false, false,
                   Forked(c, cwd, []));
    var r := [true];
    w, r := TakeOne(Initial(c, cwd), w, r, Answer(false));
    w, r := TakeOne(Initial(c, cwd), w, r, ChildStep(true));
    w, r := TakeOne(Initial(c, cwd), w, r, ChildStep(true));
  }

  /** A run in which a failed probe ends in passthrough, with the child reaped and its command never given to exec. */
  lemma FailedProbeFallsBack(c: Command, cwd: Path)
    requires Unconfigured(c)
    ensures exists w :: && ReachedWith(Initial(c, cwd), w, [true, false]) && w.parent.PassedThrough? && w.reaped
                        && w.commands.execs == [] && w.commands.fallbacks == [c]
  {
    FailureReported(c, cwd);
    var w := World(AwaitProbe, Dead, Serving, [Ready, ProbeResult(EIO)], 1, 0, true, 1, false, false, false,
                   Forked(c, cwd, []));
    var r := [true, false];
    w, r := TakeOne(Initial(c, cwd), w, r, ParentStep(true));
    w, r := TakeOne(Initial(c, cwd), w, r, ParentStep(true));
    w, r := TakeOne(Initial(c, cwd), w, r, ParentStep(true));
    w, r := TakeOne(Initial(c, cwd), w, r, ThreadQuits);
    w, r := TakeOne(Initial(c, cwd), w, r, ParentStep(true));
    w, r := TakeOne(Initial(c, cwd), w, r, ParentStep(true));
  }

  lemma RefusalReported(c: Command, cwd: Path)
    ensures Reachable(Initial(c, cwd), World(Reaping(false), Exiting, NotStarted, [SetupFailed], 1, 0, false, 0, false,
                                             false, false, Forked(c, cwd, [])))
  {
    ForkOccurs(c, cwd);
    var w := World(AwaitSetup, InstallingFilter, NotStarted, [], 0, 0, false, 0, false, false, false,
                   Forked(c, cwd, []));
    w := Take(Initial(c, cwd), w, ChildStep(false));
    w := Take(Initial(c, cwd), w, ChildStep(true));
    w := Take(Initial(c, cwd), w, ParentStep(true));
  }

  /** The filter cannot be installed: the child says so and ends by itself, and the parent passes through. */
  lemma RefusedFilterFallsBack(c: Command, cwd: Path)
    requires Unconfigured(c)
    ensures exists w :: && Reachable(Initial(c, cwd), w) && w.parent.PassedThrough? && w.sent == [SetupFailed]
                        && w.reaped && !w.doomed && w.commands.execs == [] && w.commands.fallbacks == [c]
  {
    RefusalReported(c, cwd);
    var w := World(Reaping(false), Exiting, NotStarted, [SetupFailed], 1, 0, false, 0, false, false, false,
                   Forked(c, cwd, []));
    w := Take(Initial(c, cwd), w, ChildStep(true));
    w := Take(Initial(c, cwd), w, ParentStep(true));
    w := Take(Initial(c, cwd), w, ParentStep(true));
  }
}
