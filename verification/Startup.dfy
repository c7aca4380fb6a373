/**
  The startup protocol of linux/mod.rs and the mode selection of main.rs, as interleaved
  steps of the parent, the child and the supervisor thread. Any step may fail.
 */
module Startup {
  import opened Errno
  import opened Wrappers
  import opened Paths
  import opened Bind

  datatype Command = Command(program: Bytes, args: seq<Bytes>, cwd: Option<Path>, env: map<Bytes, Bytes>)

  const PWD: Bytes := [80, 87, 68]

  /** A command as the arguments name it: caller cwd and inherited environment. */
  function Plain(program: Bytes, args: seq<Bytes>): Command {
    Command(program, args, None, map[])
  }

  function Configure(c: Command, cwd: Path): Command {
    c.(cwd := Some(cwd), env := c.env[PWD := Print(cwd)])
  }

  function PassthroughCommand(c: Command): Command {
    Plain(c.program, c.args)
  }

  // ----- Actors -----

  datatype Message = Ready | SetupFailed | ProbeResult(errno: int)

  /** `supervised` says whether a supervisor thread must be joined before giving up. */
  datatype Parent =
    | Opening | Configuring | Reopening | Pairing | Forking
    | AwaitSetup | Spawning | Installing | SendGo1 | AwaitProbe | SendGo2 | AwaitExit
    | Killing(supervised: bool) | Reaping(supervised: bool) | Joining
    | Unavailable | PassedThrough | Finishing | Exited | Failed | Gone

  datatype Child =
    | NotForked
    | InstallingFilter | ReportingFailure | SendingListener | DroppingListener
    | AwaitGo1 | Probing(left: nat) | ProbeBlocked(left: nat) | Reporting(errno: int)
    | AwaitGo2 | Execing | ChdirBlocked | Launching | ExecBlocked | Running | RunBlocked
    | Exiting | Dead

  datatype Thread = NotStarted | Serving | Stopped

  /** The command as each process holds it, and what each has given to exec. */
  datatype Commands = Commands(
    held: Command,              // the parent's
    inherited: Command,         // the child's, copied by fork
    execs: seq<Command>,        // given to exec by the child
    fallbacks: seq<Command>,    // given to exec by the parent
    cwd: Path)                  // the guest cwd main.rs chose

  datatype World = World(
    parent: Parent,
    child: Child,
    thread: Thread,
    sent: seq<Message>,         // what the child has written to the socket
    received: nat,              // how many of those the parent has read
    toChild: nat,               // go bytes in the socket
    forwarding: bool,           // signal forwarding is installed
    go: nat,                    // go bytes written so far
    stop: bool,
    doomed: bool,               // SIGKILL was sent to the child
    reaped: bool,
    commands: Commands)

  datatype Step =
    | ParentStep(ok: bool)
    | ChildStep(ok: bool)
    | Answer(ok: bool)          // the supervisor answers the blocked call
    | KernelFails               // no process holds the listener: the blocked call fails
    | ThreadFails | ThreadQuits
    | ChildKilled | ParentKilled

  predicate Blocked(c: Child) {
    c.ProbeBlocked? || c.ChdirBlocked? || c.ExecBlocked? || c.RunBlocked?
  }

  /** Written by the child and not yet read; closing the socket discards it. */
  predicate InFlight(w: World) {
    w.received < |w.sent| && !w.parent.Gone?
  }

  predicate ListenerInFlight(w: World) {
    w.received == 0 && InFlight(w) && w.sent[0].Ready?
  }

  /** The child has its own copy from installing the filter until it drops it. */
  predicate ChildHoldsListener(w: World) {
    w.child.SendingListener? || w.child.DroppingListener?
  }

  predicate ListenerHeld(w: World) {
    ChildHoldsListener(w) || w.parent.Spawning? || w.thread.Serving? || ListenerInFlight(w)
  }

  predicate Enabled(w: World, s: Step) {
    match s
    case ParentStep(ok) => (
      match w.parent
      case AwaitSetup => ok ==> InFlight(w)
      case AwaitProbe => ok ==> InFlight(w)
      case AwaitExit => ok ==> w.child.Dead?
      case Reaping(_) => w.child.Dead?
      case Joining => w.thread.Stopped?
      case Finishing => w.thread.Stopped?
      case PassedThrough => false
      case Exited => false
      case Failed => false
      case Gone => false
      case _ => true)
    case ChildStep(ok) => (
      match w.child
      case NotForked => false
      case Dead => false
      case AwaitGo1 => ok ==> w.toChild > 0
      case AwaitGo2 => ok ==> w.toChild > 0
      case c => !Blocked(c))
    case Answer(_) => Blocked(w.child) && w.thread.Serving?
    case KernelFails => Blocked(w.child) && !ListenerHeld(w)
    case ThreadFails => w.thread.Serving?
    case ThreadQuits => w.thread.Serving? && (w.stop || w.child.Dead?)
    case ChildKilled => !w.child.NotForked? && !w.child.Dead?
    case ParentKilled => !w.parent.PassedThrough? && !w.parent.Exited? && !w.parent.Failed? && !w.parent.Gone?
  }

  function Die(w: World): World {
    w.(child := Dead)
  }

  /** The parent replaces itself by `c`. */
  function PassThrough(w: World, c: Command): World {
    w.(parent := PassedThrough, commands := w.commands.(fallbacks := w.commands.fallbacks + [c]))
  }

  function ConfigureHeld(w: World): World {
    w.(parent := Reopening, commands := w.commands.(held := Configure(w.commands.held, w.commands.cwd)))
  }

  function Fork(w: World): World {
    w.(parent := AwaitSetup, child := InstallingFilter, commands := w.commands.(inherited := w.commands.held))
  }

  function Launch(w: World): World {
    w.(child := ExecBlocked, commands := w.commands.(execs := w.commands.execs + [w.commands.inherited]))
  }

  predicate BeforeFork(p: Parent) {
    p.Opening? || p.Configuring? || p.Reopening? || p.Pairing? || p.Forking?
  }

  /** The parent waits for the listener and starts serving it. */
  predicate Handshaking(p: Parent) {
    p.AwaitSetup? || p.Spawning? || p.Installing? || p.SendGo1?
  }

  /** The parent waits for the probe, commits and waits for the command. */
  predicate Deciding(p: Parent) {
    p.AwaitProbe? || p.SendGo2? || p.AwaitExit?
  }

  function OpeningNext(w: World, ok: bool): World {
    match w.parent
    case Opening => if ok then w.(parent := Configuring) else PassThrough(w, w.commands.held)
    case Configuring => ConfigureHeld(w)
    case Reopening => w.(parent := if ok then Pairing else Unavailable)
    case Pairing => w.(parent := if ok then Forking else Unavailable)
    case Forking => if ok then Fork(w) else w.(parent := Unavailable)
    case _ => w
  }

  function HandshakeNext(w: World, ok: bool): World {
    match w.parent
    case AwaitSetup =>
      if !ok || !InFlight(w) then w.(parent := Killing(false))
      else if w.sent[w.received].SetupFailed? then w.(parent := Reaping(false), received := w.received + 1)
      else if w.sent[w.received].Ready? then w.(parent := Spawning, received := w.received + 1)
      else w.(parent := Killing(false), received := w.received + 1)
    case Spawning =>
      if ok then w.(parent := Installing, thread := Serving)
      else w.(parent := Killing(false))
    case Installing => if ok then w.(parent := SendGo1, forwarding := true) else w.(parent := Killing(true))
    case SendGo1 =>
      if ok then w.(parent := AwaitProbe, go := 1, toChild := w.toChild + 1)
      else w.(parent := Killing(true), forwarding := false)
    case _ => w
  }

  function DecidingNext(w: World, ok: bool): World {
    match w.parent
    case AwaitProbe =>
      if !ok || !InFlight(w) then w.(parent := Killing(true), forwarding := false)
      else if w.sent[w.received] == ProbeResult(0) then w.(parent := SendGo2, received := w.received + 1)
      else w.(parent := Killing(true), forwarding := false, received := w.received + 1)
    case SendGo2 =>
      if ok then w.(parent := AwaitExit, go := 2, toChild := w.toChild + 1)
      else w.(parent := Killing(true), forwarding := false)
    case AwaitExit =>
      if ok then w.(parent := Finishing, forwarding := false, stop := true, reaped := true)
      else w.(parent := Failed, forwarding := false)
    case _ => w
  }

  function EndingNext(w: World): World {
    match w.parent
    case Killing(supervised) => w.(parent := Reaping(supervised), doomed := true)
    case Reaping(supervised) =>
      if supervised then w.(parent := Joining, reaped := true, stop := true)
      else w.(parent := Unavailable, reaped := true)
    case Joining => w.(parent := Unavailable)
    case Unavailable => PassThrough(w, PassthroughCommand(w.commands.held))
    case Finishing => w.(parent := Exited)
    case _ => w
  }

  function ParentNext(w: World, ok: bool): World {
    if BeforeFork(w.parent) then OpeningNext(w, ok)
    else if Handshaking(w.parent) then HandshakeNext(w, ok)
    else if Deciding(w.parent) then DecidingNext(w, ok)
    else EndingNext(w)
  }

  /** The child hands its listener over. */
  predicate SettingUp(c: Child) {
    c.InstallingFilter? || c.ReportingFailure? || c.SendingListener? || c.DroppingListener?
  }

  /** The child has its probe asked, made and judged. */
  predicate OnProbe(c: Child) {
    c.AwaitGo1? || c.Probing? || c.Reporting? || c.AwaitGo2?
  }

  function SetupNext(w: World, ok: bool): World {
    match w.child
    case InstallingFilter => if ok then w.(child := SendingListener) else w.(child := ReportingFailure)
    case ReportingFailure => if ok then w.(child := Exiting, sent := w.sent + [SetupFailed]) else w.(child := Exiting)
    case SendingListener => if ok then w.(child := DroppingListener, sent := w.sent + [Ready]) else w.(child := Exiting)
    case DroppingListener => w.(child := AwaitGo1)
    case _ => w
  }

  function ReadGo(w: World, c: Child): World {
    w.(child := c, toChild := if w.toChild > 0 then w.toChild - 1 else 0)
  }

  function ProbeNext(w: World, ok: bool): World {
    match w.child
    case AwaitGo1 => if ok then ReadGo(w, Probing(2)) else w.(child := Exiting)
    case Probing(left) => if left == 0 then w.(child := Reporting(0)) else w.(child := ProbeBlocked(left - 1))
    case Reporting(errno) =>
      if !ok then w.(child := Exiting)
      else w.(sent := w.sent + [ProbeResult(errno)], child := if errno == 0 then AwaitGo2 else Exiting)
    case AwaitGo2 => if ok then ReadGo(w, Execing) else w.(child := Exiting)
    case _ => w
  }

  function CommandNext(w: World, ok: bool): World {
    match w.child
    case Execing => w.(child := ChdirBlocked)
    case Launching => Launch(w)
    case Running => w.(child := if ok then RunBlocked else Exiting)
    case Exiting => Die(w)
    case _ => w
  }

  function ChildNext(w: World, ok: bool): World {
    if SettingUp(w.child) then SetupNext(w, ok)
    else if OnProbe(w.child) then ProbeNext(w, ok)
    else CommandNext(w, ok)
  }

  /** The blocked call returns; `ok` is its success. A failed chdir or exec ends the child. */
  function Unblock(w: World, ok: bool): World {
    match w.child
    case ProbeBlocked(left) => w.(child := if ok then Probing(left) else Reporting(EIO))
    case ChdirBlocked => w.(child := if ok then Launching else Exiting)
    case ExecBlocked => w.(child := if ok then Running else Exiting)
    case RunBlocked => w.(child := Running)
    case _ => w
  }

  function Next(w: World, s: Step): World {
    match s
    case ParentStep(ok) => ParentNext(w, ok)
    case ChildStep(ok) => ChildNext(w, ok)
    case Answer(ok) => Unblock(w, ok)
    case KernelFails => Unblock(w, false)
    case ThreadFails => w.(thread := Stopped)
    case ThreadQuits => w.(thread := Stopped)
    case ChildKilled => Die(w)
    case ParentKilled =>
      w.(parent := Gone, forwarding := false,
         thread := if w.thread.Serving? then Stopped else w.thread)
  }

  /** The command is as the arguments name it: caller cwd and inherited environment. */
  predicate Unconfigured(c: Command) {
    c == Plain(c.program, c.args)
  }

  /** Where every invocation starts. */
  function Initial(c: Command, cwd: Path): World {
    World(Opening, NotForked, NotStarted, [], 0, 0, false, 0, false, false, false, Commands(c, c, [], [], cwd))
  }

  ghost predicate IsRun(w: World, steps: seq<Step>)
    decreases |steps|
  {
    steps == [] || (Enabled(w, steps[0]) && IsRun(Next(w, steps[0]), steps[1..]))
  }

  function After(w: World, steps: seq<Step>): World
    decreases |steps|
  {
    if steps == [] then w else After(Next(w, steps[0]), steps[1..])
  }

  // ----- The invariant -----

  /** The parent has given up on the child. */
  predicate GivingUp(p: Parent) {
    p.Killing? || p.Reaping? || p.Joining? || p.Unavailable? || p.PassedThrough?
  }

  predicate PassedGo1(c: Child) {
    c.Probing? || c.ProbeBlocked? || c.Reporting? || c.AwaitGo2?
  }

  predicate PassedGo2(c: Child) {
    c.Execing? || c.ChdirBlocked? || c.Launching? || c.ExecBlocked? || c.Running? || c.RunBlocked?
  }

  function Bit(b: bool): nat {
    if b then 1 else 0
  }

  predicate WroteReady(w: World) {
    |w.sent| == 1 && w.sent[0].Ready?
  }

  predicate WroteSuccess(w: World) {
    |w.sent| == 2 && w.sent[0].Ready? && w.sent[1] == ProbeResult(0)
  }

  /** What the child has written, by its phase. */
  predicate SentInvariant(w: World) {
    && w.received <= |w.sent| <= 2
    && (|w.sent| == 1 ==> w.sent[0].Ready? || w.sent[0].SetupFailed?)
    && (|w.sent| == 2 ==> w.sent[0].Ready? && w.sent[1].ProbeResult? && w.go >= 1)
    && (w.child.NotForked? || w.child.InstallingFilter? || w.child.ReportingFailure? || w.child.SendingListener? ==>
        |w.sent| == 0)
    && (w.child.DroppingListener? || w.child.AwaitGo1? || (PassedGo1(w.child) && !w.child.AwaitGo2?) ==> WroteReady(w))
    && (w.child.AwaitGo2? || PassedGo2(w.child) ==> WroteSuccess(w))
    && (|w.sent| == 1 && w.sent[0].SetupFailed? ==> w.child.Exiting? || w.child.Dead?)
  }

  /** Each go byte is read at most once, and only after it was written. */
  predicate GoInvariant(w: World) {
    !w.child.Dead? && !w.child.Exiting? ==>
      && w.toChild + Bit(PassedGo1(w.child)) + 2 * Bit(PassedGo2(w.child)) == w.go
      && (PassedGo1(w.child) ==> w.go >= 1)
      && (PassedGo2(w.child) ==> w.go == 2)
  }

  predicate AwaitsResult(p: Parent) {
    p.Spawning? || p.Installing? || p.SendGo1? || p.AwaitProbe?
  }

  /** The parent has written the second go byte. */
  predicate Committed(p: Parent) {
    p.AwaitExit? || p.Finishing? || p.Exited? || p.Failed?
  }

  /** How far the parent can be, given what it has read and written. */
  predicate ParentInvariant(w: World) {
    && w.go <= 2
    && (BeforeFork(w.parent) ==> w.child.NotForked? && w.received == 0)
    && (w.parent.AwaitSetup? ==> w.received == 0 && !w.child.NotForked?)
    && (AwaitsResult(w.parent) ==> w.received == 1 && |w.sent| >= 1 && w.sent[0].Ready?)
    && (w.parent.SendGo2? || Committed(w.parent) ==> w.received == 2 && WroteSuccess(w))
    && (w.go == 2 ==> w.go >= 1 && WroteSuccess(w) && w.received == 2 && (Committed(w.parent) || w.parent.Gone?))
    && (w.go >= 1 ==> !BeforeFork(w.parent) && !Handshaking(w.parent))
    && (w.parent.AwaitProbe? || w.parent.SendGo2? ==> w.go >= 1)
    && (Committed(w.parent) ==> w.go == 2)
    && (w.parent.SendGo1? || w.parent.AwaitProbe? || w.parent.SendGo2? || w.parent.AwaitExit? ==> w.forwarding)
  }

  /** A child the parent has given up on is dead and reaped before the fallback. */
  predicate ReapInvariant(w: World) {
    && (w.parent.Reaping? ==> w.doomed || w.child.Dead? || w.child.Exiting?)
    && (w.parent.Joining? || w.parent.Finishing? || w.parent.Exited? ==> w.reaped)
    && (w.parent.Unavailable? || w.parent.PassedThrough? ==> w.child.NotForked? || w.reaped)
    && (w.parent.Killing? || w.parent.Reaping? ==> !w.child.NotForked?)
    && (w.reaped ==> w.child.Dead?)
  }

  /** The supervisor exists once a go byte was written, and stops only after the child. */
  predicate ListenerInvariant(w: World) {
    && (w.go >= 1 ==> !w.thread.NotStarted? && w.received >= 1)
    && (w.parent.Installing? || w.parent.SendGo1? ==> !w.thread.NotStarted?)
    && (w.stop ==> w.child.Dead?)
    && ((w.parent.Joining? || w.parent.Finishing?) ==> w.stop && !w.thread.NotStarted?)
    && ((w.parent == Killing(true) || w.parent == Reaping(true)) ==> !w.thread.NotStarted?)
  }

  /** How often a command was given to exec, and by whom. */
  predicate AttemptInvariant(w: World) {
    && |w.commands.fallbacks| == Bit(w.parent.PassedThrough?)
    && |w.commands.execs| <= Bit(w.go == 2)
    && (w.child.ExecBlocked? || w.child.Running? || w.child.RunBlocked? ==> |w.commands.execs| == 1)
    && (w.commands.execs != [] ==>
          w.child.ExecBlocked? || w.child.Running? || w.child.RunBlocked? || w.child.Exiting? || w.child.Dead?)
  }

  predicate Core(w: World) {
    SentInvariant(w) && GoInvariant(w) && ParentInvariant(w) && ReapInvariant(w) && ListenerInvariant(w)
  }

  predicate Inv(w: World) {
    Core(w) && AttemptInvariant(w)
  }

  lemma OpeningKeepsSocket(w: World, ok: bool)
    requires Core(w) && BeforeFork(w.parent) && Enabled(w, ParentStep(ok))
    ensures SentInvariant(OpeningNext(w, ok)) && GoInvariant(OpeningNext(w, ok))
  {
  }

  lemma OpeningKeepsParent(w: World, ok: bool)
    requires Core(w) && BeforeFork(w.parent) && Enabled(w, ParentStep(ok))
    ensures ParentInvariant(OpeningNext(w, ok)) && ReapInvariant(OpeningNext(w, ok))
        && ListenerInvariant(OpeningNext(w, ok))
  {
  }

  lemma OpeningKeepsAttempts(w: World, ok: bool)
    requires Inv(w) && BeforeFork(w.parent) && Enabled(w, ParentStep(ok))
    ensures AttemptInvariant(OpeningNext(w, ok))
  {
  }

  lemma HandshakeKeepsSocket(w: World, ok: bool)
    requires Core(w) && Handshaking(w.parent) && Enabled(w, ParentStep(ok))
    ensures SentInvariant(HandshakeNext(w, ok)) && GoInvariant(HandshakeNext(w, ok))
  {
  }

  lemma SetupAwaitedKeepsOwn(w: World, ok: bool)
    requires Core(w) && w.parent.AwaitSetup?
    ensures ParentInvariant(HandshakeNext(w, ok))
  {
  }

  lemma ServingKeepsOwn(w: World, ok: bool)
    requires Core(w) && Handshaking(w.parent) && !w.parent.AwaitSetup?
    ensures ParentInvariant(HandshakeNext(w, ok))
  {
  }

  lemma HandshakeKeepsOwn(w: World, ok: bool)
    requires Core(w) && Handshaking(w.parent)
    ensures ParentInvariant(HandshakeNext(w, ok))
  {
    if w.parent.AwaitSetup? {
      SetupAwaitedKeepsOwn(w, ok);
    } else {
      ServingKeepsOwn(w, ok);
    }
  }

  lemma HandshakeKeepsChild(w: World, ok: bool)
    requires Core(w) && Handshaking(w.parent) && Enabled(w, ParentStep(ok))
    ensures ReapInvariant(HandshakeNext(w, ok)) && ListenerInvariant(HandshakeNext(w, ok))
  {
  }

  lemma HandshakeKeepsAttempts(w: World, ok: bool)
    requires Inv(w) && Handshaking(w.parent) && Enabled(w, ParentStep(ok))
    ensures AttemptInvariant(HandshakeNext(w, ok))
  {
  }

  lemma DecidingKeepsSocket(w: World, ok: bool)
    requires Core(w) && Deciding(w.parent) && Enabled(w, ParentStep(ok))
    ensures SentInvariant(DecidingNext(w, ok)) && GoInvariant(DecidingNext(w, ok))
  {
  }

  lemma DecidingKeepsParent(w: World, ok: bool)
    requires Core(w) && Deciding(w.parent) && Enabled(w, ParentStep(ok))
    ensures ParentInvariant(DecidingNext(w, ok)) && ReapInvariant(DecidingNext(w, ok))
        && ListenerInvariant(DecidingNext(w, ok))
  {
  }

  lemma DecidingKeepsAttempts(w: World, ok: bool)
    requires Inv(w) && Deciding(w.parent) && Enabled(w, ParentStep(ok))
    ensures AttemptInvariant(DecidingNext(w, ok))
  {
  }

  predicate Ending(p: Parent) {
    p.Killing? || p.Reaping? || p.Joining? || p.Unavailable? || p.Finishing?
  }

  lemma EndingKeepsSocket(w: World)
    requires Core(w) && Ending(w.parent) && Enabled(w, ParentStep(true))
    ensures SentInvariant(EndingNext(w)) && GoInvariant(EndingNext(w))
  {
  }

  /** A parent that gives up wrote at most one go byte, and that is all its invariant asks. */
  lemma GivenUp(w: World)
    requires GivingUp(w.parent)
    ensures ParentInvariant(w) <==> w.go <= 1
  {
  }

  lemma EndingStays(w: World)
    requires Ending(w.parent) && !w.parent.Finishing?
    ensures EndingNext(w).go == w.go && GivingUp(EndingNext(w).parent)
  {
  }

  lemma EndingKeepsOwn(w: World)
    requires Core(w) && Ending(w.parent)
    ensures ParentInvariant(EndingNext(w))
  {
    if !w.parent.Finishing? {
      EndingStays(w);
      GivenUp(w);
      GivenUp(EndingNext(w));
    }
  }

  lemma EndingKeepsChild(w: World)
    requires Core(w) && Ending(w.parent) && Enabled(w, ParentStep(true))
    ensures ReapInvariant(EndingNext(w)) && ListenerInvariant(EndingNext(w))
  {
  }

  lemma EndingKeepsAttempts(w: World)
    requires Inv(w) && Ending(w.parent) && Enabled(w, ParentStep(true))
    ensures AttemptInvariant(EndingNext(w))
  {
  }

  lemma SetupKeepsCore(w: World, ok: bool)
    requires Core(w) && SettingUp(w.child) && Enabled(w, ChildStep(ok))
    ensures Core(SetupNext(w, ok))
  {
  }

  lemma SetupKeepsAttempts(w: World, ok: bool)
    requires Inv(w) && SettingUp(w.child) && Enabled(w, ChildStep(ok))
    ensures AttemptInvariant(SetupNext(w, ok))
  {
  }

  lemma ProbeKeepsCore(w: World, ok: bool)
    requires Core(w) && OnProbe(w.child) && Enabled(w, ChildStep(ok))
    ensures Core(ProbeNext(w, ok))
  {
  }

  lemma ProbeKeepsAttempts(w: World, ok: bool)
    requires Inv(w) && OnProbe(w.child) && Enabled(w, ChildStep(ok))
    ensures AttemptInvariant(ProbeNext(w, ok))
  {
  }

  predicate OnCommand(c: Child) {
    c.Execing? || c.Launching? || c.Running? || c.Exiting?
  }

  lemma CommandKeepsCore(w: World, ok: bool)
    requires Core(w) && OnCommand(w.child) && Enabled(w, ChildStep(ok))
    ensures Core(CommandNext(w, ok))
  {
  }

  lemma CommandKeepsAttempts(w: World, ok: bool)
    requires Inv(w) && OnCommand(w.child) && Enabled(w, ChildStep(ok))
    ensures AttemptInvariant(CommandNext(w, ok))
  {
  }

  lemma ParentKeepsInv(w: World, ok: bool)
    requires Inv(w) && Enabled(w, ParentStep(ok))
    ensures Inv(ParentNext(w, ok))
  {
    if BeforeFork(w.parent) {
      OpeningKeepsSocket(w, ok);
      OpeningKeepsParent(w, ok);
      OpeningKeepsAttempts(w, ok);
    } else if Handshaking(w.parent) {
      HandshakeKeepsSocket(w, ok);
      HandshakeKeepsOwn(w, ok);
      HandshakeKeepsChild(w, ok);
      HandshakeKeepsAttempts(w, ok);
    } else if Deciding(w.parent) {
      DecidingKeepsSocket(w, ok);
      DecidingKeepsParent(w, ok);
      DecidingKeepsAttempts(w, ok);
    } else {
      EndingKeepsSocket(w);
      EndingKeepsOwn(w);
      EndingKeepsChild(w);
      EndingKeepsAttempts(w);
    }
  }

  lemma ChildKeepsInv(w: World, ok: bool)
    requires Inv(w) && Enabled(w, ChildStep(ok))
    ensures Inv(ChildNext(w, ok))
  {
    if SettingUp(w.child) {
      SetupKeepsCore(w, ok);
      SetupKeepsAttempts(w, ok);
    } else if OnProbe(w.child) {
      ProbeKeepsCore(w, ok);
      ProbeKeepsAttempts(w, ok);
    } else {
      CommandKeepsCore(w, ok);
      CommandKeepsAttempts(w, ok);
    }
  }

  lemma CallKeepsInv(w: World, ok: bool)
    requires Inv(w) && Blocked(w.child)
    ensures Inv(Unblock(w, ok))
  {
  }

  lemma FaultKeepsInv(w: World, s: Step)
    requires Inv(w) && Enabled(w, s) && (s.ThreadFails? || s.ThreadQuits? || s.ChildKilled? || s.ParentKilled?)
    ensures Inv(Next(w, s))
  {
  }

  lemma StepKeepsInv(w: World, s: Step)
    requires Inv(w) && Enabled(w, s)
    ensures Inv(Next(w, s))
  {
    match s {
      case ParentStep(ok) => ParentKeepsInv(w, ok);
      case ChildStep(ok) => ChildKeepsInv(w, ok);
      case Answer(ok) => CallKeepsInv(w, ok);
      case KernelFails => CallKeepsInv(w, false);
      case _ => FaultKeepsInv(w, s);
    }
  }

  lemma {:induction false} RunKeepsInv(w: World, steps: seq<Step>)
    requires Inv(w) && IsRun(w, steps)
    ensures Inv(After(w, steps))
    decreases |steps|
  {
    if steps != [] {
      StepKeepsInv(w, steps[0]);
      RunKeepsInv(Next(w, steps[0]), steps[1..]);
    }
  }

  /** Nothing has happened yet. */
  predicate Fresh(w: World) {
    && w.parent.Opening? && w.child.NotForked? && w.thread.NotStarted?
    && w.sent == [] && w.received == 0 && w.toChild == 0 && w.go == 0
    && !w.forwarding && !w.stop && !w.doomed && !w.reaped
    && w.commands.execs == [] && w.commands.fallbacks == []
    && Unconfigured(w.commands.held)
  }

  lemma FreshInv(w: World)
    requires Fresh(w)
    ensures Inv(w)
  {
  }

  lemma {:induction false} ReachableInv(start: World, steps: seq<Step>)
    requires Fresh(start) && IsRun(start, steps)
    ensures Inv(After(start, steps))
  {
    FreshInv(start);
    RunKeepsInv(start, steps);
  }

  // ----- Main results -----

  /**
    In every interleaving and under every failure the command is given to exec at most once:
    by the child only after the listener was handed over, the supervisor started, signal
    forwarding installed, the probe reported zero and the second go byte written; by the
    parent only when the child never got that far and was never forked or is dead and reaped.
   */
  lemma {:induction false} AtMostOneStart(start: World, steps: seq<Step>)
    requires Fresh(start) && IsRun(start, steps)
    ensures var w := After(start, steps);
            && |w.commands.execs| + |w.commands.fallbacks| <= 1
            && (w.commands.execs != [] || PassedGo2(w.child) ==>
                  w.go == 2 && !w.thread.NotStarted? && WroteSuccess(w) && w.received == 2 && !GivingUp(w.parent))
            && (PassedGo2(w.child) && !w.parent.Failed? && !w.parent.Gone? ==> w.parent.AwaitExit? && w.forwarding)
            && (w.parent.Unavailable? || w.parent.PassedThrough? ==>
                  w.commands.execs == [] && (w.child.NotForked? || (w.child.Dead? && w.reaped)))
            && (w.parent.PassedThrough? <==> |w.commands.fallbacks| == 1)
            && (w.parent.Exited? ==> w.child.Dead? && w.reaped && w.commands.fallbacks == [])
  {
    ReachableInv(start, steps);
  }

  lemma {:induction false} RunSplit(w: World, a: seq<Step>, b: seq<Step>)
    ensures After(w, a + b) == After(After(w, a), b)
    ensures IsRun(w, a + b) ==> IsRun(w, a) && IsRun(After(w, a), b)
    decreases |a|
  {
    if a == [] {
      assert a + b == b;
    } else {
      assert (a + b)[0] == a[0] && (a + b)[1..] == a[1..] + b;
      RunSplit(Next(w, a[0]), a[1..], b);
    }
  }

  lemma CommitStays(w: World, s: Step)
    requires Inv(w) && w.go == 2 && Enabled(w, s)
    ensures Next(w, s).go == 2
  {
  }

  lemma NoFallbackYet(w: World)
    requires Inv(w) && w.go == 2
    ensures w.commands.fallbacks == []
  {
  }

  lemma {:induction false} CommitIsFinal(w: World, steps: seq<Step>)
    requires Inv(w) && w.go == 2 && IsRun(w, steps)
    ensures Inv(After(w, steps)) && After(w, steps).go == 2 && After(w, steps).commands.fallbacks == []
    decreases |steps|
  {
    if steps == [] {
      NoFallbackYet(w);
    } else {
      StepKeepsInv(w, steps[0]);
      CommitStays(w, steps[0]);
      CommitIsFinal(Next(w, steps[0]), steps[1..]);
    }
  }

  /** Nothing that happens after the second go byte leads to passthrough. */
  lemma {:induction false} NoFallbackAfterCommit(start: World, before: seq<Step>, later: seq<Step>)
    requires Fresh(start) && IsRun(start, before + later) && After(start, before).go == 2
    ensures After(start, before + later).commands.fallbacks == []
    ensures !After(start, before + later).parent.Unavailable?
  {
    RunSplit(start, before, later);
    ReachableInv(start, before);
    CommitIsFinal(After(start, before), later);
    ReachableInv(start, before + later);
  }

  /**
    A child waiting on an intercepted call is served by the supervisor or, once nobody
    holds the listener, fails in the kernel; it is never left waiting.
   */
  lemma {:induction false} NoUnservedBlock(start: World, steps: seq<Step>)
    requires Fresh(start) && IsRun(start, steps) && Blocked(After(start, steps).child)
    ensures var w := After(start, steps);
            && (w.thread.Serving? <==> ListenerHeld(w))
            && !ChildHoldsListener(w) && !w.parent.Spawning? && !ListenerInFlight(w)
            && (Enabled(w, Answer(true)) || Enabled(w, KernelFails))
            && !Blocked(Unblock(w, true).child) && !Blocked(Unblock(w, false).child)
  {
    ReachableInv(start, steps);
  }

  /** A step that is no injected fault: a kill was sent, and the parent gives up waiting only when the child is gone. */
  predicate Proper(w: World, s: Step) {
    match s
    case ParentStep(ok) => ok || (w.child.Dead? && (w.parent.AwaitSetup? || w.parent.AwaitProbe?))
    case ChildStep(ok) => ok
    case Answer(_) => true
    case KernelFails => true
    case ThreadQuits => true
    case ChildKilled => w.doomed
    case _ => false
  }

  function SomeStep(w: World): Step {
    if Enabled(w, ParentStep(true)) then ParentStep(true)
    else if w.doomed && Enabled(w, ChildKilled) then ChildKilled
    else if Blocked(w.child) then if w.thread.Serving? then Answer(true) else KernelFails
    else if Enabled(w, ChildStep(true)) then ChildStep(true)
    else if w.parent.Joining? || w.parent.Finishing? then ThreadQuits
    else ParentStep(false)
  }

  /** No interleaving deadlocks: until the parent has finished, some step is possible without waiting for a timeout. */
  lemma {:induction false} NeverStuck(start: World, steps: seq<Step>)
    requires Fresh(start) && IsRun(start, steps)
    requires var p := After(start, steps).parent; !p.PassedThrough? && !p.Exited? && !p.Failed? && !p.Gone?
    ensures Enabled(After(start, steps), SomeStep(After(start, steps)))
    ensures Proper(After(start, steps), SomeStep(After(start, steps)))
  {
    ReachableInv(start, steps);
  }

  // ----- Every attempt ends -----

  function ParentRank(p: Parent): nat {
    match p
    case Opening => 18 case Configuring => 17 case Reopening => 16 case Pairing => 15 case Forking => 14
    case AwaitSetup => 13 case Spawning => 12 case Installing => 10 case SendGo1 => 9 case AwaitProbe => 8
    case SendGo2 => 7 case AwaitExit => 6
    case Killing(_) => 4 case Reaping(_) => 3 case Joining => 2 case Unavailable => 1 case Finishing => 1
    case PassedThrough => 0 case Exited => 0 case Failed => 0 case Gone => 0
  }

  function ChildRank(c: Child): nat {
    match c
    case NotForked => 30 case InstallingFilter => 29 case SendingListener => 28 case DroppingListener => 27
    case AwaitGo1 => 26
    case Probing(left) => 12 + 2 * left
    case ProbeBlocked(left) => 13 + 2 * left
    case Reporting(_) => 11 case AwaitGo2 => 10 case Execing => 9 case ChdirBlocked => 8 case Launching => 7
    case ExecBlocked => 6 case Running => 3 case RunBlocked => 3
    case ReportingFailure => 2 case Exiting => 1 case Dead => 0
  }

  function ThreadRank(t: Thread): nat {
    match t case NotStarted => 2 case Serving => 1 case Stopped => 0
  }

  function Rank(w: World): nat {
    ParentRank(w.parent) + ChildRank(w.child) + ThreadRank(w.thread)
  }

  /** The running command makes a call, or its call returns. */
  predicate CommandStep(w: World, s: Step) {
    || (w.child.Running? && s == ChildStep(true))
    || (w.child.RunBlocked? && (s.Answer? || s.KernelFails?))
  }

  lemma OpeningDescends(w: World, ok: bool)
    requires BeforeFork(w.parent) && w.child.NotForked?
    ensures Rank(OpeningNext(w, ok)) < Rank(w)
  {
  }

  lemma HandshakeDescends(w: World, ok: bool)
    requires Handshaking(w.parent)
    ensures Rank(HandshakeNext(w, ok)) < Rank(w)
  {
  }

  lemma DecidingDescends(w: World, ok: bool)
    requires Deciding(w.parent)
    ensures Rank(DecidingNext(w, ok)) < Rank(w)
  {
  }

  lemma EndingDescends(w: World)
    requires Ending(w.parent)
    ensures Rank(EndingNext(w)) < Rank(w)
  {
  }

  lemma ParentDescends(w: World, ok: bool)
    requires Enabled(w, ParentStep(ok)) && (BeforeFork(w.parent) ==> w.child.NotForked?)
    ensures Rank(ParentNext(w, ok)) < Rank(w)
  {
    if BeforeFork(w.parent) {
      OpeningDescends(w, ok);
    } else if Handshaking(w.parent) {
      HandshakeDescends(w, ok);
    } else if Deciding(w.parent) {
      DecidingDescends(w, ok);
    } else {
      EndingDescends(w);
    }
  }

  lemma SetupDescends(w: World, ok: bool)
    requires SettingUp(w.child)
    ensures Rank(SetupNext(w, ok)) < Rank(w)
  {
  }

  lemma GoDescends(w: World, ok: bool)
    requires w.child.AwaitGo1? || w.child.AwaitGo2?
    ensures Rank(ProbeNext(w, ok)) < Rank(w)
  {
  }

  lemma ProbingDescends(w: World, ok: bool)
    requires w.child.Probing? || w.child.Reporting?
    ensures Rank(ProbeNext(w, ok)) < Rank(w)
  {
  }

  lemma ProbeDescends(w: World, ok: bool)
    requires OnProbe(w.child)
    ensures Rank(ProbeNext(w, ok)) < Rank(w)
  {
    if w.child.AwaitGo1? || w.child.AwaitGo2? {
      GoDescends(w, ok);
    } else {
      ProbingDescends(w, ok);
    }
  }

  lemma CommandDescends(w: World, ok: bool)
    requires OnCommand(w.child)
    ensures w.child.Running? && ok ==> Rank(CommandNext(w, ok)) == Rank(w)
    ensures !(w.child.Running? && ok) ==> Rank(CommandNext(w, ok)) < Rank(w)
  {
  }

  lemma ChildDescends(w: World, ok: bool)
    requires Enabled(w, ChildStep(ok))
    ensures w.child.Running? && ok ==> Rank(ChildNext(w, ok)) == Rank(w)
    ensures !(w.child.Running? && ok) ==> Rank(ChildNext(w, ok)) < Rank(w)
  {
    if SettingUp(w.child) {
      SetupDescends(w, ok);
    } else if OnProbe(w.child) {
      ProbeDescends(w, ok);
    } else {
      CommandDescends(w, ok);
    }
  }

  lemma ReturnDescends(w: World, ok: bool)
    requires Blocked(w.child)
    ensures w.child.RunBlocked? ==> Rank(Unblock(w, ok)) == Rank(w)
    ensures !w.child.RunBlocked? ==> Rank(Unblock(w, ok)) < Rank(w)
  {
  }

  lemma FaultDescends(w: World, s: Step)
    requires Enabled(w, s) && (s.ThreadFails? || s.ThreadQuits? || s.ChildKilled? || s.ParentKilled?)
    ensures Rank(Next(w, s)) < Rank(w)
  {
  }

  /** Every step but the running command's own brings the protocol nearer to its end. */
  lemma StepDescends(w: World, s: Step)
    requires Inv(w) && Enabled(w, s)
    ensures CommandStep(w, s) ==> Rank(Next(w, s)) == Rank(w)
    ensures !CommandStep(w, s) ==> Rank(Next(w, s)) < Rank(w)
  {
    match s {
      case ParentStep(ok) => ParentDescends(w, ok);
      case ChildStep(ok) => ChildDescends(w, ok);
      case Answer(ok) => ReturnDescends(w, ok);
      case KernelFails => ReturnDescends(w, false);
      case _ => FaultDescends(w, s);
    }
  }

  function CommandSteps(w: World, steps: seq<Step>): nat
    decreases |steps|
  {
    if steps == [] then 0
    else (if CommandStep(w, steps[0]) then 1 else 0) + CommandSteps(Next(w, steps[0]), steps[1..])
  }

  lemma {:induction false} RunDescends(w: World, steps: seq<Step>)
    requires Inv(w) && IsRun(w, steps)
    ensures |steps| + Rank(After(w, steps)) <= Rank(w) + CommandSteps(w, steps)
    decreases |steps|
  {
    if steps != [] {
      var s := steps[0];
      StepKeepsInv(w, s);
      StepDescends(w, s);
      RunDescends(Next(w, s), steps[1..]);
    }
  }

  predicate Ended(p: Parent) {
    p.PassedThrough? || p.Exited? || p.Failed? || p.Gone?
  }

  /**
    Under every scheduling and every failure the protocol ends: apart from the calls of the running
    command no run takes more than 50 steps, and a run that cannot go on has ended.
   */
  lemma {:induction false} EveryRunEnds(start: World, steps: seq<Step>)
    requires Fresh(start) && IsRun(start, steps)
    ensures |steps| <= 50 + CommandSteps(start, steps)
    ensures (forall s :: !Enabled(After(start, steps), s)) ==> Ended(After(start, steps).parent)
  {
    FreshInv(start);
    RunDescends(start, steps);
    if !Ended(After(start, steps).parent) {
      NeverStuck(start, steps);
    }
  }

  // ----- Both outcomes occur -----

  ghost predicate Reachable(start: World, w: World) {
    exists steps :: IsRun(start, steps) && After(start, steps) == w
  }

  /** The commands once the child was forked. */
  function Forked(c: Command, cwd: Path, execs: seq<Command>): Commands {
    Commands(Configure(c, cwd), Configure(c, cwd), execs, [], cwd)
  }

  lemma {:induction false} ExtendFrom(w: World, steps: seq<Step>, s: Step)
    requires IsRun(w, steps) && Enabled(After(w, steps), s)
    ensures IsRun(w, steps + [s]) && After(w, steps + [s]) == Next(After(w, steps), s)
    decreases |steps|
  {
    if steps == [] {
      assert (steps + [s])[1..] == [];
    } else {
      assert (steps + [s])[0] == steps[0] && (steps + [s])[1..] == steps[1..] + [s];
      ExtendFrom(Next(w, steps[0]), steps[1..], s);
    }
  }

  lemma Take(start: World, w: World, s: Step) returns (w': World)
    requires Reachable(start, w) && Enabled(w, s)
    ensures Reachable(start, w') && w' == Next(w, s)
  {
    w' := Next(w, s);
    var steps :| IsRun(start, steps) && After(start, steps) == w;
    ExtendFrom(start, steps, s);
  }

  lemma ForkOccurs(c: Command, cwd: Path)
    ensures Reachable(Initial(c, cwd), World(AwaitSetup, InstallingFilter, NotStarted, [], 0, 0, false, 0, false,
                                             false, false, Forked(c, cwd, [])))
  {
    var w := Initial(c, cwd);
    assert IsRun(w, []) && After(w, []) == w;
    w := Take(Initial(c, cwd), w, ParentStep(true));
    w := Take(Initial(c, cwd), w, ParentStep(true));
    w := Take(Initial(c, cwd), w, ParentStep(true));
    w := Take(Initial(c, cwd), w, ParentStep(true));
    w := Take(Initial(c, cwd), w, ParentStep(true));
  }

  lemma SetupOccurs(c: Command, cwd: Path)
    ensures Reachable(Initial(c, cwd), World(Spawning, AwaitGo1, NotStarted, [Ready], 1, 0, false, 0, false, false,
                                             false, Forked(c, cwd, [])))
  {
    ForkOccurs(c, cwd);
    var w := World(AwaitSetup, InstallingFilter, NotStarted, [], 0, 0, false, 0, false, false, false,
                   Forked(c, cwd, []));
    w := Take(Initial(c, cwd), w, ChildStep(true));
    w := Take(Initial(c, cwd), w, ChildStep(true));
    w := Take(Initial(c, cwd), w, ChildStep(true));
    w := Take(Initial(c, cwd), w, ParentStep(true));
  }

  /** Forking, the handshake and the first go byte. */
  lemma HandshakeOccurs(c: Command, cwd: Path)
    ensures Reachable(Initial(c, cwd), World(AwaitProbe, AwaitGo1, Serving, [Ready], 1, 1, true, 1, false, false,
                                             false, Forked(c, cwd, [])))
  {
    SetupOccurs(c, cwd);
    var w := World(Spawning, AwaitGo1, NotStarted, [Ready], 1, 0, false, 0, false, false, false, Forked(c, cwd, []));
    w := Take(Initial(c, cwd), w, ParentStep(true));
    w := Take(Initial(c, cwd), w, ParentStep(true));
    w := Take(Initial(c, cwd), w, ParentStep(true));
  }

  /** The child runs its probe against the serving supervisor. */
  lemma ProbeServed(c: Command, cwd: Path)
    ensures Reachable(Initial(c, cwd), World(AwaitProbe, Probing(0), Serving, [Ready], 1, 0, true, 1, false, false,
                                             false, Forked(c, cwd, [])))
  {
    HandshakeOccurs(c, cwd);
    var w := World(AwaitProbe, AwaitGo1, Serving, [Ready], 1, 1, true, 1, false, false, false, Forked(c, cwd, []));
    w := Take(Initial(c, cwd), w, ChildStep(true));
    w := Take(Initial(c, cwd), w, ChildStep(true));
    w := Take(Initial(c, cwd), w, Answer(true));
    w := Take(Initial(c, cwd), w, ChildStep(true));
    w := Take(Initial(c, cwd), w, Answer(true));
  }

  lemma ProbeReported(c: Command, cwd: Path)
    ensures Reachable(Initial(c, cwd), World(AwaitProbe, AwaitGo2, Serving, [Ready, ProbeResult(0)], 1, 0, true, 1,
                                             false, false, false, Forked(c, cwd, [])))
  {
    ProbeServed(c, cwd);
    var w := World(AwaitProbe, Probing(0), Serving, [Ready], 1, 0, true, 1, false, false, false, Forked(c, cwd, []));
    w := Take(Initial(c, cwd), w, ChildStep(true));
    w := Take(Initial(c, cwd), w, ChildStep(true));
  }

  lemma ProbeOccurs(c: Command, cwd: Path)
    ensures Reachable(Initial(c, cwd), World(AwaitExit, AwaitGo2, Serving, [Ready, ProbeResult(0)], 2, 1, true, 2,
                                             false, false, false, Forked(c, cwd, [])))
  {
    ProbeReported(c, cwd);
    var w := World(AwaitProbe, AwaitGo2, Serving, [Ready, ProbeResult(0)], 1, 0, true, 1,
                   false, false, false, Forked(c, cwd, []));
    w := Take(Initial(c, cwd), w, ParentStep(true));
    w := Take(Initial(c, cwd), w, ParentStep(true));
  }

  /** The child enters its directory and gives the command to exec. */
  lemma LaunchOccurs(c: Command, cwd: Path)
    ensures Reachable(Initial(c, cwd), World(AwaitExit, ExecBlocked, Serving, [Ready, ProbeResult(0)], 2, 0, true, 2,
                                             false, false, false, Forked(c, cwd, [Configure(c, cwd)])))
  {
    ProbeOccurs(c, cwd);
    var w := World(AwaitExit, AwaitGo2, Serving, [Ready, ProbeResult(0)], 2, 1, true, 2, false, false, false,
                   Forked(c, cwd, []));
    w := Take(Initial(c, cwd), w, ChildStep(true));
    w := Take(Initial(c, cwd), w, ChildStep(true));
    w := Take(Initial(c, cwd), w, Answer(true));
    w := Take(Initial(c, cwd), w, ChildStep(true));
  }

  lemma CommandEnds(c: Command, cwd: Path)
    ensures Reachable(Initial(c, cwd), World(AwaitExit, Exiting, Serving, [Ready, ProbeResult(0)], 2, 0, true, 2,
                                             false, false, false, Forked(c, cwd, [Configure(c, cwd)])))
  {
    LaunchOccurs(c, cwd);
    var w := World(AwaitExit, ExecBlocked, Serving, [Ready, ProbeResult(0)], 2, 0, true, 2, false, false, false,
                   Forked(c, cwd, [Configure(c, cwd)]));
    w := Take(Initial(c, cwd), w, Answer(true));
    w := Take(Initial(c, cwd), w, ChildStep(false));
  }

  /** The command can be started in the child and run to its end. */
  lemma MappedRunOccurs(c: Command, cwd: Path)
    ensures exists w :: Reachable(Initial(c, cwd), w) && w.parent.Exited? && w.commands.execs == [Configure(c, cwd)]
  {
    CommandEnds(c, cwd);
    var w := World(AwaitExit, Exiting, Serving, [Ready, ProbeResult(0)], 2, 0, true, 2, false, false, false,
                   Forked(c, cwd, [Configure(c, cwd)]));
    w := Take(Initial(c, cwd), w, ChildStep(true));
    w := Take(Initial(c, cwd), w, ParentStep(true));
    w := Take(Initial(c, cwd), w, ThreadQuits);
    w := Take(Initial(c, cwd), w, ParentStep(true));
  }

  lemma KillOccurs(c: Command, cwd: Path)
    ensures Reachable(Initial(c, cwd), World(Joining, Dead, Serving, [Ready], 1, 1, false, 1, true, true, true,
                                             Forked(c, cwd, [])))
  {
    HandshakeOccurs(c, cwd);
    var w := World(AwaitProbe, AwaitGo1, Serving, [Ready], 1, 1, true, 1, false, false, false, Forked(c, cwd, []));
    w := Take(Initial(c, cwd), w, ParentStep(false));
    w := Take(Initial(c, cwd), w, ParentStep(true));
    w := Take(Initial(c, cwd), w, ChildKilled);
    w := Take(Initial(c, cwd), w, ParentStep(true));
  }

  /** A probe that is not reported in time ends in passthrough, with the child killed and reaped. */
  lemma FallbackOccurs(c: Command, cwd: Path)
    ensures exists w :: && Reachable(Initial(c, cwd), w) && w.parent.PassedThrough? && w.reaped
                        && w.commands.fallbacks == [PassthroughCommand(Configure(c, cwd))]
  {
    KillOccurs(c, cwd);
    var w := World(Joining, Dead, Serving, [Ready], 1, 1, false, 1, true, true, true, Forked(c, cwd, []));
    w := Take(Initial(c, cwd), w, ThreadQuits);
    w := Take(Initial(c, cwd), w, ParentStep(true));
    w := Take(Initial(c, cwd), w, ParentStep(true));
  }

  // ----- What is started -----

  /** Which command each process holds and has given to exec, when the arguments named `c`. */
  predicate CommandInvariant(w: World, c: Command, cwd: Path) {
    && w.commands.cwd == cwd
    && (w.commands.held == c || w.commands.held == Configure(c, cwd))
    && (w.parent.Opening? || w.parent.Configuring? ==> w.commands.held == c)
    && (!w.parent.Opening? && !w.parent.Configuring? && !w.parent.PassedThrough? && !w.parent.Gone? ==>
          w.commands.held == Configure(c, cwd))
    && (!w.child.NotForked? ==> w.commands.inherited == Configure(c, cwd))
    && (forall x :: x in w.commands.execs ==> x == Configure(c, cwd))
    && (forall x :: x in w.commands.fallbacks ==> x == c)
  }

  lemma OpeningKeepsCommands(w: World, ok: bool, c: Command, cwd: Path)
    requires Unconfigured(c) && CommandInvariant(w, c, cwd) && BeforeFork(w.parent) && w.child.NotForked?
    ensures CommandInvariant(OpeningNext(w, ok), c, cwd)
  {
  }

  lemma HandshakeKeepsCommands(w: World, ok: bool, c: Command, cwd: Path)
    requires CommandInvariant(w, c, cwd) && Handshaking(w.parent)
    ensures CommandInvariant(HandshakeNext(w, ok), c, cwd)
  {
  }

  lemma DecidingKeepsCommands(w: World, ok: bool, c: Command, cwd: Path)
    requires CommandInvariant(w, c, cwd) && Deciding(w.parent)
    ensures CommandInvariant(DecidingNext(w, ok), c, cwd)
  {
  }

  lemma EndingKeepsCommands(w: World, c: Command, cwd: Path)
    requires Unconfigured(c) && CommandInvariant(w, c, cwd) && Ending(w.parent)
    ensures CommandInvariant(EndingNext(w), c, cwd)
  {
  }

  lemma ParentKeepsCommands(w: World, ok: bool, c: Command, cwd: Path)
    requires Unconfigured(c) && CommandInvariant(w, c, cwd) && Enabled(w, ParentStep(ok))
    requires BeforeFork(w.parent) ==> w.child.NotForked?
    ensures CommandInvariant(ParentNext(w, ok), c, cwd)
  {
    if BeforeFork(w.parent) {
      OpeningKeepsCommands(w, ok, c, cwd);
    } else if Handshaking(w.parent) {
      HandshakeKeepsCommands(w, ok, c, cwd);
    } else if Deciding(w.parent) {
      DecidingKeepsCommands(w, ok, c, cwd);
    } else {
      EndingKeepsCommands(w, c, cwd);
    }
  }

  lemma SetupKeepsCommands(w: World, ok: bool, c: Command, cwd: Path)
    requires CommandInvariant(w, c, cwd) && SettingUp(w.child)
    ensures CommandInvariant(SetupNext(w, ok), c, cwd)
  {
  }

  lemma ProbeKeepsCommands(w: World, ok: bool, c: Command, cwd: Path)
    requires CommandInvariant(w, c, cwd) && OnProbe(w.child)
    ensures CommandInvariant(ProbeNext(w, ok), c, cwd)
  {
  }

  lemma LaunchKeepsCommands(w: World, ok: bool, c: Command, cwd: Path)
    requires CommandInvariant(w, c, cwd) && OnCommand(w.child)
    ensures CommandInvariant(CommandNext(w, ok), c, cwd)
  {
  }

  lemma ChildKeepsCommands(w: World, ok: bool, c: Command, cwd: Path)
    requires CommandInvariant(w, c, cwd) && Enabled(w, ChildStep(ok))
    ensures CommandInvariant(ChildNext(w, ok), c, cwd)
  {
    if SettingUp(w.child) {
      SetupKeepsCommands(w, ok, c, cwd);
    } else if OnProbe(w.child) {
      ProbeKeepsCommands(w, ok, c, cwd);
    } else {
      LaunchKeepsCommands(w, ok, c, cwd);
    }
  }

  lemma OthersKeepCommands(w: World, s: Step, c: Command, cwd: Path)
    requires CommandInvariant(w, c, cwd) && Enabled(w, s) && !s.ParentStep? && !s.ChildStep?
    ensures CommandInvariant(Next(w, s), c, cwd)
  {
  }

  lemma {:induction false} RunKeepsCommands(w: World, steps: seq<Step>, c: Command, cwd: Path)
    requires Unconfigured(c) && Inv(w) && CommandInvariant(w, c, cwd) && IsRun(w, steps)
    ensures CommandInvariant(After(w, steps), c, cwd)
    decreases |steps|
  {
    if steps != [] {
      var s := steps[0];
      StepKeepsInv(w, s);
      match s {
        case ParentStep(ok) => ParentKeepsCommands(w, ok, c, cwd);
        case ChildStep(ok) => ChildKeepsCommands(w, ok, c, cwd);
        case _ => OthersKeepCommands(w, s, c, cwd);
      }
      RunKeepsCommands(Next(w, s), steps[1..], c, cwd);
    }
  }

  lemma Singleton(xs: seq<Command>, x: Command)
    requires |xs| <= 1 && forall y :: y in xs ==> y == x
    ensures xs == [] || xs == [x]
  {
    if xs != [] {
      assert xs[0] in xs;
    }
  }

  /**
    In every interleaving the one command that reaches exec is the named one: by the child in the
    guest cwd with its PWD, or by the parent exactly as the caller gave it.
   */
  lemma {:induction false} StartedCommand(start: World, steps: seq<Step>)
    requires Fresh(start) && IsRun(start, steps)
    ensures var c, w := start.commands.held, After(start, steps).commands;
            && (w.execs == [] || w.execs == [Command(c.program, c.args, Some(start.commands.cwd),
                                                     map[PWD := Print(start.commands.cwd)])])
            && (w.fallbacks == [] || w.fallbacks == [Plain(c.program, c.args)])
            && (w.execs == [] || w.fallbacks == [])
  {
    var c := start.commands.held;
    FreshInv(start);
    RunKeepsCommands(start, steps, c, start.commands.cwd);
    AtMostOneStart(start, steps);
    var w := After(start, steps).commands;
    Singleton(w.execs, Configure(c, start.commands.cwd));
    Singleton(w.fallbacks, c);
  }

  /**
    The guest cwd of main.rs: the requested directory when it exists or was created below
    a bind, otherwise the root. `created` is asked only for a missing projected directory.
   */
  method ChooseGuestCwd(v: View, requested: Bytes, metadata: Result<bool, int>, created: Option<int>)
    returns (cwd: Path)
    ensures cwd == Normalize(requested) || cwd == []
    ensures Normalize(requested) != [] ==>
              (cwd != [] <==>
                 || metadata == Ok(true)
                 || (metadata == Err(ENOENT) && Projects(v, Normalize(requested)) && created.None?))
  {
    var p := Normalize(requested);
    match metadata {
      case Ok(isDir) => return if isDir then p else [];
      case Err(errno) =>
        if errno != ENOENT || !Projects(v, p) || created.Some? {
          return [];
        }
        return p;
    }
  }
}
