/**
  Effects of the commands start, run and restart, and which sequences of them the commands produce. A
  trace predicate describes a command without exception: its effects in order, with every look at the
  interrupt flag, and the result that goes with them. The theorems say what that means.
*/
module CommandTraces {
  import opened Wrappers
  import opened Runtimes
  import opened TokenLifecycle

  datatype Answer = Yes | No | Unknown

  /** How the host client ended: with an exit code, or without one. */
  datatype ClientStatus = Exited(code: int) | Signaled

  datatype Effect =
    | WriteToken(root: Root, ok: bool)
    | RunDetachedEffect(name: Name, ok: bool, started: bool)   // what `podman run` reports, and what came up
    | PolledFlag(interrupted: bool)                                // the command looks at its interrupt flag
    | WaitedForServer(outcome: WaitOutcome)
    | StopContainer(name: Name, ok: bool)
    | ContainerExists(name: Name, answer: Answer)
    | VolumeExists(name: Name, answer: Answer)
    | RemoveVolume(name: Name, ok: bool)
    | RunClient(status: Option<ClientStatus>)

  datatype WaitReply = BecomesReady | StaysPending | GivesUp

  datatype WaitOutcome = ServerReady | WaitInterrupted | WaitFailed

  /** What the outside answers to one question; a call may fail and have had its effect all the same. */
  datatype Reply = Reply(ok: bool, changed: bool, status: ClientStatus, wait: WaitReply, token: Token)

  datatype Error = ExitCode(code: nat) | ExitCodeWithMessage(code: nat) | Message

  type Outcome = Result<(), Error>

  // ---------------------------------------------------------------- cleanup verdicts

  datatype Verification = Removed | StillExists | VerificationFailed

  datatype Issue =
    | StopFailedIssue | StillExistsIssue | VerificationFailedIssue
    | VolumeRemovalFailed | VolumeRemovalSkipped

  /** `ManagedContainerCleanup` */
  datatype Cleanup = Cleanup(stopFailed: bool, verification: Verification) {
    function StopIssue(): seq<Issue> {
      if stopFailed then [StopFailedIssue] else []
    }

    function RemainingIssue(): Option<Issue> {
      match verification
      case Removed => None
      case StillExists => Some(StillExistsIssue)
      case VerificationFailed => Some(VerificationFailedIssue)
    }

    /** A failure only if the container may remain: an error of the stop alone does not count. */
    function RemainingFailure(): Option<seq<Issue>> {
      match RemainingIssue()
      case None => None
      case Some(issue) => Some(StopIssue() + [issue])
    }
  }

  function AnswerOf(v: Verification): Answer {
    match v case Removed => No case StillExists => Yes case VerificationFailed => Unknown
  }

  // ---------------------------------------------------------------- exit codes

  /** `CommandExitFailure::from_status`: no failure, a code that fits a byte, or none. */
  datatype ExitFailure = Code(code: nat) | SignalExit

  function ExitFailureOf(status: ClientStatus): Option<ExitFailure> {
    match status
    case Exited(code) => if code == 0 then None else if 0 <= code < 256 then Some(Code(code)) else Some(SignalExit)
    case Signaled => Some(SignalExit)
  }

  function IntoErrorWithCleanup(failure: ExitFailure, cleanup: Outcome): Error {
    match failure
    case Code(code) => if cleanup.Ok? then ExitCode(code) else ExitCodeWithMessage(code)
    case SignalExit => Message
  }

  // ---------------------------------------------------------------- traces

  predicate StopAndVerifyTrace(d: seq<Effect>, name: Name) {
    && |d| == 2
    && d[0].StopContainer? && d[0].name == name
    && d[1].ContainerExists? && d[1].name == name
  }

  /** Which command a detached server is launched for. */
  datatype Lifecycle = TransientServer | StartServer(cacheVolumeExistedBefore: bool) | RestartServer

  /** The start cleanup removes the cache volume only if it is new and the container is gone. */
  predicate InterruptedStartTrace(d: seq<Effect>, name: Name, cacheVolumeExistedBefore: bool) {
    && |d| >= 2 && StopAndVerifyTrace(d[..2], name)
    && if d[1].answer == No && !cacheVolumeExistedBefore then |d| == 3 && d[2].RemoveVolume? && d[2].name == name
       else |d| == 2
  }

  /** What the cleanup of an interrupted start reports, in order. */
  function CleanupIssues(d: seq<Effect>, cacheVolumeExistedBefore: bool): seq<Issue>
    requires |d| >= 2 && d[0].StopContainer? && d[1].ContainerExists? && (|d| > 2 ==> d[2].RemoveVolume?)
  {
    StopIssues(d)
    + (if |d| > 2 then (if d[2].ok then [] else [VolumeRemovalFailed])
       else if d[1].answer != No && !cacheVolumeExistedBefore then [VolumeRemovalSkipped] else [])
  }

  function StopIssues(d: seq<Effect>): seq<Issue>
    requires |d| >= 2 && d[0].StopContainer? && d[1].ContainerExists?
  {
    (if d[0].ok then [] else [StopFailedIssue])
    + match d[1].answer case No => [] case Yes => [StillExistsIssue] case Unknown => [VerificationFailedIssue]
  }

  lemma IssuesOfStop(cleanup: Cleanup, d: seq<Effect>, name: Name, cacheVolumeExistedBefore: bool)
    requires d == [StopContainer(name, !cleanup.stopFailed), ContainerExists(name, AnswerOf(cleanup.verification))]
    ensures StopIssues(d) == cleanup.StopIssue() + match cleanup.RemainingIssue()
                                                   case None => [] case Some(issue) => [issue]
    ensures forall more: seq<Effect> :: |more| > 2 && more[..2] == d && more[2].RemoveVolume? ==>
              CleanupIssues(more, cacheVolumeExistedBefore) ==
              StopIssues(d) + if more[2].ok then [] else [VolumeRemovalFailed]
    ensures CleanupIssues(d, cacheVolumeExistedBefore) ==
            if cleanup.verification != Removed && !cacheVolumeExistedBefore then StopIssues(d) + [VolumeRemovalSkipped]
            else StopIssues(d)
    ensures cleanup.RemainingIssue().None? <==> cleanup.verification == Removed
  {
    assert StopIssues(d) + [] == StopIssues(d);
    forall more: seq<Effect> | |more| > 2 && more[..2] == d && more[2].RemoveVolume?
      ensures CleanupIssues(more, cacheVolumeExistedBefore) ==
              StopIssues(d) + if more[2].ok then [] else [VolumeRemovalFailed]
    {
      assert more[0] == d[0] && more[1] == d[1];
    }
  }

  /** Each thing that went wrong is reported, and nothing else; nothing is reported when all of it worked. */
  lemma IssuesIff(d: seq<Effect>, name: Name, cacheVolumeExistedBefore: bool)
    requires InterruptedStartTrace(d, name, cacheVolumeExistedBefore)
    ensures var issues := CleanupIssues(d, cacheVolumeExistedBefore);
            && (StopFailedIssue in issues <==> !d[0].ok)
            && (StillExistsIssue in issues <==> d[1].answer == Yes)
            && (VerificationFailedIssue in issues <==> d[1].answer == Unknown)
            && (VolumeRemovalFailed in issues <==> |d| == 3 && !d[2].ok)
            && (VolumeRemovalSkipped in issues <==> d[1].answer != No && !cacheVolumeExistedBefore)
            && (issues == [] <==> d[0].ok && d[1].answer == No && (cacheVolumeExistedBefore || d[2].ok))
  {
  }

  /** The effects of a cleanup after an interrupt, for each command. */
  predicate InterruptTrace(lifecycle: Lifecycle, d: seq<Effect>, name: Name) {
    match lifecycle
    case TransientServer => StopAndVerifyTrace(d, name)
    case StartServer(existed) => InterruptedStartTrace(d, name, existed)
    case RestartServer => d == []
  }

  /** One look at the flag: if it is set, the cleanup of the command follows and the launch is over. */
  predicate CheckTrace(lifecycle: Lifecycle, d: seq<Effect>, name: Name, result: Outcome) {
    && |d| >= 1 && d[0].PolledFlag?
    && if d[0].interrupted then InterruptTrace(lifecycle, d[1..], name) && result == Err(Message)
       else |d| == 1 && result == Ok(())
  }

  /** What follows the wait. When readiness failed, only the transient run cleans up. */
  predicate AfterWaitTrace(lifecycle: Lifecycle, waited: WaitOutcome, d: seq<Effect>, name: Name, result: Outcome) {
    match waited
    case ServerReady => CheckTrace(lifecycle, d, name, result)
    case WaitInterrupted => CheckTrace(lifecycle, d, name, result) && d[0].interrupted
    case WaitFailed => result == Err(Message)
                       && if lifecycle.TransientServer? then StopAndVerifyTrace(d, name) else d == []
  }

  /** The effects of a launch, without exception, and its result. */
  predicate LaunchTrace(lifecycle: Lifecycle, d: seq<Effect>, name: Name, result: Outcome) {
    if d == [] then result == Err(Message)
    else
      && |d| >= 2 && d[0].RunDetachedEffect? && d[0].name == name && (d[0].ok ==> d[0].started)
      && d[1].PolledFlag?
      && if d[1].interrupted then InterruptTrace(lifecycle, d[2..], name) && result == Err(Message)
         else if !d[0].ok then |d| == 2 && result == Err(Message)
         else |d| >= 3 && d[2].WaitedForServer? && AfterWaitTrace(lifecycle, d[2].outcome, d[3..], name, result)
  }

  /** A command may store a token first. */
  function WithoutToken(d: seq<Effect>): seq<Effect> {
    if d != [] && d[0].WriteToken? then d[1..] else d
  }

  /** At most the token of this root was written. */
  predicate IsTokenWrite(d: seq<Effect>, root: Root) {
    d == [] || (|d| == 1 && d[0].WriteToken? && d[0].root == root)
  }

  /** What a transient run returns once its client has ended and the cleanup has been verified. */
  function ClientOutcome(status: Option<ClientStatus>, gone: Answer): Outcome {
    var cleanup: Outcome := if gone == No then Ok(()) else Err(Message);
    match status
    case None => Err(Message)
    case Some(status) =>
      match ExitFailureOf(status)
      case None => cleanup
      case Some(failure) => Err(IntoErrorWithCleanup(failure, cleanup))
  }

  /** The effects and the result of a transient run after its token was prepared. */
  predicate TransientTrace(d: seq<Effect>, name: Name, result: Outcome) {
    || (LaunchTrace(TransientServer, d, name, Err(Message)) && result == Err(Message))
    || (&& |d| == 7 && LaunchTrace(TransientServer, d[..4], name, Ok(())) && d[4].RunClient?
        && StopAndVerifyTrace(d[5..], name) && result == ClientOutcome(d[4].status, d[6].answer))
  }

  /** The effects and the result of launching a managed server and, if asked for, its client. */
  predicate ManagedTrace(lifecycle: Lifecycle, d: seq<Effect>, name: Name, connect: bool, result: Outcome) {
    || (LaunchTrace(lifecycle, d, name, Err(Message)) && result == Err(Message))
    || (!connect && LaunchTrace(lifecycle, d, name, Ok(())) && result == Ok(()))
    || (&& connect && |d| == 5 && LaunchTrace(lifecycle, d[..4], name, Ok(())) && d[4].RunClient?
        && result == if d[4].status == Some(Exited(0)) then Ok(()) else Err(Message))
  }

  /** `start` after its preparation: it looks for the cache volume, then it launches. */
  predicate StartTrace(d: seq<Effect>, name: Name, connect: bool, result: Outcome) {
    if d == [] then result == Err(Message)
    else
      && d[0].VolumeExists? && d[0].name == name
      && if d[0].answer == Unknown then |d| == 1 && result == Err(Message)
         else ManagedTrace(StartServer(d[0].answer == Yes), d[1..], name, connect, result)
  }

  /** `restart` after its preparation: it stops the old container, and launches if that is gone. */
  predicate RestartTrace(d: seq<Effect>, oldName: Name, name: Name, connect: bool, result: Outcome) {
    if d == [] then result == Err(Message)
    else
      && |d| >= 2 && StopAndVerifyTrace(d[..2], oldName)
      && if d[1].answer != No then |d| == 2 && result == Err(Message)
         else ManagedTrace(RestartServer, d[2..], name, connect, result)
  }

  // ---------------------------------------------------------------- what the traces mean

  predicate Stops(d: seq<Effect>) {
    exists j :: 0 <= j < |d| && d[j].StopContainer?
  }

  predicate Launches(d: seq<Effect>) {
    exists j :: 0 <= j < |d| && d[j].RunDetachedEffect?
  }

  predicate SawInterrupt(d: seq<Effect>) {
    exists j :: 0 <= j < |d| && d[j] == PolledFlag(true)
  }

  predicate WaitingFailed(d: seq<Effect>) {
    exists j :: 0 <= j < |d| && d[j] == WaitedForServer(WaitFailed)
  }

  /** An interrupt that is seen ends the launch, and the cleanup of the command is all that follows. */
  lemma SeenInterruptCleansUp(lifecycle: Lifecycle, d: seq<Effect>, name: Name, result: Outcome, j: nat)
    requires LaunchTrace(lifecycle, d, name, result) && j < |d| && d[j] == PolledFlag(true)
    ensures result == Err(Message) && InterruptTrace(lifecycle, d[j + 1..], name)
  {
    if j != 1 {
      assert !d[1].interrupted && j >= 3;
      assert d[j] == d[3..][j - 3];
      assert d[3..][1..] == d[4..];
    }
  }

  /** A launch stops its container exactly when it sees an interrupt, or when a transient server fails to get ready. */
  lemma LaunchStopsIff(lifecycle: Lifecycle, d: seq<Effect>, name: Name, result: Outcome)
    requires LaunchTrace(lifecycle, d, name, result)
    ensures Stops(d) <==>
              match lifecycle
              case TransientServer => SawInterrupt(d) || WaitingFailed(d)
              case StartServer(_) => SawInterrupt(d)
              case RestartServer => false
  {
    if d == [] {
    } else if d[1].interrupted {
      assert SawInterrupt(d);
      assert !lifecycle.RestartServer? ==> d[2..][0] == d[2] && d[2].StopContainer?;
    } else if d[0].ok {
      var tail := d[3..];
      assert forall j :: 3 <= j < |d| ==> d[j] == tail[j - 3];
      if d[2].outcome == WaitFailed {
        assert WaitingFailed(d);
        assert lifecycle.TransientServer? ==> tail[0].StopContainer?;
      } else if tail[0].interrupted {
        assert d[3] == PolledFlag(true) && SawInterrupt(d);
        assert !lifecycle.RestartServer? ==> tail[1..][0] == d[4] && d[4].StopContainer?;
      }
    }
  }

  /** A launch that succeeds had a container come up, a flag that stayed clear and a server that got ready. */
  lemma LaunchSucceeds(lifecycle: Lifecycle, d: seq<Effect>, name: Name)
    ensures LaunchTrace(lifecycle, d, name, Ok(())) <==>
              d == [RunDetachedEffect(name, true, true), PolledFlag(false), WaitedForServer(ServerReady),
                    PolledFlag(false)]
  {
    if LaunchTrace(lifecycle, d, name, Ok(())) {
      assert d[3..][0] == d[3] && |d| == 4;
    }
  }

  /** How often the container was stopped and asked for. */
  function Cleanups(d: seq<Effect>, name: Name): nat {
    if |d| < 2 then 0
    else (if StopAndVerifyTrace(d[..2], name) then 1 else 0) + Cleanups(d[1..], name)
  }

  lemma {:induction false} CleanupsAtEnd(d: seq<Effect>, name: Name)
    requires |d| >= 2 && forall j :: 0 <= j < |d| - 2 ==> !d[j].StopContainer?
    ensures Cleanups(d, name) == if StopAndVerifyTrace(d[|d| - 2..], name) then 1 else 0
  {
    if |d| == 2 {
      assert d[..2] == d && d[0..] == d;
      assert Cleanups(d[1..], name) == 0;
    } else {
      assert d[..2][0] == d[0];
      CleanupsAtEnd(d[1..], name);
      assert d[1..][|d| - 3..] == d[|d| - 2..];
    }
  }

  /**
    A transient run cleans up exactly once, with its last two effects, if podman reported the start or
    the look at the flag after it found an interrupt; otherwise it does not clean up at all. So a
    container that came up is left behind exactly when podman reports a failure all the same and no
    interrupt was seen. The run succeeds if and only if podman, the server and the client did, no
    interrupt was seen and the container was then verified gone; a client's exit code is passed on.
  */
  lemma TransientCleansUpExactlyOnce(d: seq<Effect>, name: Name, result: Outcome)
    requires TransientTrace(d, name, result)
    ensures Cleanups(d, name) == if d != [] && (d[0].ok || d[1].interrupted) then 1 else 0
    ensures d != [] && d[0].started ==> (Cleanups(d, name) == 1 <==> d[0].ok || d[1].interrupted)
    ensures Cleanups(d, name) == 1 ==> StopAndVerifyTrace(d[|d| - 2..], name)
    ensures result.Ok? <==>
              && |d| == 7 && d[0] == RunDetachedEffect(name, true, true) && !SawInterrupt(d)
              && d[2] == WaitedForServer(ServerReady) && d[4] == RunClient(Some(Exited(0)))
              && StopAndVerifyTrace(d[5..], name) && d[6].answer == No
    ensures forall code :: |d| == 7 && d[4] == RunClient(Some(Exited(code))) && 0 < code < 256 ==>
              result == Err(if d[6].answer == No then ExitCode(code) else ExitCodeWithMessage(code))
    ensures |d| == 7 && (forall code | 0 <= code < 256 :: d[4] != RunClient(Some(Exited(code)))) ==>
              result == Err(Message)
  {
    if |d| == 7 && LaunchTrace(TransientServer, d[..4], name, Ok(())) {
      LaunchSucceeds(TransientServer, d[..4], name);
      assert forall j :: 0 <= j < 4 ==> d[j] == d[..4][j];
      assert d[5..][0] == d[5] && d[5..][1] == d[6];
      CleanupsAtEnd(d, name);
    } else if d != [] && (d[0].ok || d[1].interrupted) {
      FailedTransientEnd(d, name);
      CleanupsAtEnd(d, name);
    } else if d != [] {
      CleanupsAtEnd(d, name);
      assert d[|d| - 2..] == d;
    }
  }

  lemma FailedTransientEnd(d: seq<Effect>, name: Name)
    requires d != [] && LaunchTrace(TransientServer, d, name, Err(Message)) && (d[0].ok || d[1].interrupted)
    ensures 4 <= |d| <= 6 && StopAndVerifyTrace(d[|d| - 2..], name)
    ensures forall j :: 0 <= j < |d| - 2 ==> !d[j].StopContainer? && !d[j].RunClient?
    ensures |d| == 6 ==> d[3] == PolledFlag(true)
  {
    if d[1].interrupted {
      assert d[|d| - 2..] == d[2..];
    } else if d[2].outcome == WaitFailed {
      assert d[|d| - 2..] == d[3..];
    } else {
      assert d[3..][0] == d[3];
      assert d[3..][1..] == d[4..] == d[|d| - 2..];
    }
  }

  /** A container that comes up although podman reports a failure is not cleaned up: `run` just fails. */
  lemma UnreportedStartIsLeftBehind(name: Name)
    ensures var d := [RunDetachedEffect(name, false, true), PolledFlag(false)];
            TransientTrace(d, name, Err(Message)) && d[0].started && Cleanups(d, name) == 0 && !Stops(d)
  {
    var d := [RunDetachedEffect(name, false, true), PolledFlag(false)];
    assert Cleanups(d[1..], name) == 0;
    assert d[..2][0] == d[0];
  }

  /**
    A volume is removed only as the last effect, right after its container was stopped and verified
    gone, and only if the volume was seen to be absent before.
  */
  predicate VolumeRemovalIsSafe(d: seq<Effect>, name: Name) {
    forall j :: 0 <= j < |d| && d[j].RemoveVolume? ==>
      && j == |d| - 1 && j >= 3 && d[j].name == name
      && StopAndVerifyTrace(d[j - 2..j], name) && d[j - 1].answer == No
      && VolumeExists(name, No) in d[..j - 2]
  }

  /** A replacement is launched only right after the old container was stopped and verified gone. */
  predicate ReplacementComesLast(d: seq<Effect>, oldName: Name) {
    forall j :: 0 <= j < |d| && d[j].RunDetachedEffect? ==>
      && j >= 2 && StopAndVerifyTrace(d[j - 2..j], oldName) && d[j - 1].answer == No
  }

  /** What is left of a managed trace without its client is the trace of its launch. */
  lemma LaunchPart(lifecycle: Lifecycle, d: seq<Effect>, name: Name, connect: bool, result: Outcome)
    returns (launch: seq<Effect>, launched: Outcome)
    requires ManagedTrace(lifecycle, d, name, connect, result)
    ensures launch <= d && |d| <= |launch| + 1 && LaunchTrace(lifecycle, launch, name, launched)
    ensures forall j :: 0 <= j < |d| && !d[j].RunClient? ==> j < |launch| && launch[j] == d[j]
    ensures |d| == |launch| + 1 ==> d[|d| - 1].RunClient? && launched.Ok?
    ensures launched.Err? ==> result == launched && launch == d
  {
    if LaunchTrace(lifecycle, d, name, Err(Message)) && result == Err(Message) {
      launch, launched := d, Err(Message);
    } else if !connect {
      launch, launched := d, Ok(());
    } else {
      launch, launched := d[..4], Ok(());
    }
  }

  /**
    An interrupt that `start` sees before its server is reported ready always makes it fail and clean
    up: the container is stopped, and a cache volume that was not there before is removed if the
    container is verified gone. Without one nothing is stopped.
  */
  lemma StartCleansUpIffInterrupted(d: seq<Effect>, name: Name, connect: bool, result: Outcome)
    requires StartTrace(d, name, connect, result)
    ensures Stops(d) <==> SawInterrupt(d)
    ensures forall j :: 0 <= j < |d| && d[j] == PolledFlag(true) ==>
              result == Err(Message) && InterruptedStartTrace(d[j + 1..], name, d[0].answer == Yes)
  {
    if |d| > 1 {
      var lifecycle := StartServer(d[0].answer == Yes);
      var launch, launched := LaunchPart(lifecycle, d[1..], name, connect, result);
      LaunchStopsIff(lifecycle, launch, name, launched);
      if launched.Ok? {
        LaunchSucceeds(lifecycle, launch, name);
      }
      assert forall j :: 0 <= j < |launch| ==> d[j + 1] == launch[j];
      assert forall j :: 1 <= j <= |launch| ==> d[j] == launch[j - 1];
      forall j | 0 <= j < |d| && d[j] == PolledFlag(true)
        ensures result == Err(Message) && InterruptedStartTrace(d[j + 1..], name, d[0].answer == Yes)
      {
        assert launch[j - 1] == PolledFlag(true);
        SeenInterruptCleansUp(lifecycle, launch, name, launched, j - 1);
        assert launch[j..] == d[j + 1..];
      }
    }
  }

  /** Where the cache volume may be removed in a launch. */
  lemma LaunchRemovesVolumeLast(existed: bool, d: seq<Effect>, name: Name, result: Outcome, j: nat)
    requires LaunchTrace(StartServer(existed), d, name, result) && j < |d| && d[j].RemoveVolume?
    ensures !existed && j == |d| - 1 && j >= 4 && d[j].name == name && result == Err(Message)
    ensures StopAndVerifyTrace(d[j - 2..j], name) && d[j - 1].answer == No
  {
    if d[1].interrupted {
      var tail := d[2..];
      assert tail[j - 2] == d[j];
      assert tail[..2] == d[2..4] && tail[1] == d[3];
    } else {
      assert d[3..][j - 3] == d[j];
      var tail := d[4..];
      assert d[3..][1..] == tail;
      assert tail[j - 4] == d[j];
      assert tail[..2] == [d[4], d[5]] == d[4..6];
    }
  }

  lemma SliceOfTail(d: seq<Effect>, from: nat, to: nat)
    requires from <= to < |d|
    ensures d[1..][from..to] == d[from + 1..to + 1]
  {
  }

  lemma StartIsSafe(d: seq<Effect>, name: Name, connect: bool, result: Outcome)
    requires StartTrace(d, name, connect, result)
    ensures VolumeRemovalIsSafe(d, name)
  {
    forall j | 0 <= j < |d| && d[j].RemoveVolume?
      ensures j == |d| - 1 && j >= 3 && d[j].name == name && StopAndVerifyTrace(d[j - 2..j], name)
              && d[j - 1].answer == No && VolumeExists(name, No) in d[..j - 2]
    {
      hide LaunchTrace, ManagedTrace, StopAndVerifyTrace;
      var existed, rest := d[0].answer == Yes, d[1..];
      var launch, launched := LaunchPart(StartServer(existed), rest, name, connect, result);
      assert j >= 1 && rest[j - 1] == d[j];
      LaunchRemovesVolumeLast(existed, launch, name, launched, j - 1);
      assert launched.Err? && launch == rest;
      SliceOfTail(d, j - 3, j - 1);
      assert rest[j - 2] == d[j - 1];
      assert d[0].answer == No;
      assert d[..j - 2][0] == d[0] == VolumeExists(name, No);
    }
  }

  /** The token that a command stored first does not matter for what it does with the volume. */
  lemma TokenFirst(d: seq<Effect>, name: Name)
    requires VolumeRemovalIsSafe(WithoutToken(d), name)
    ensures VolumeRemovalIsSafe(d, name)
  {
    if d != [] && d[0].WriteToken? {
      var rest := d[1..];
      forall j | 0 <= j < |d| && d[j].RemoveVolume?
        ensures j == |d| - 1 && j >= 3 && d[j].name == name && StopAndVerifyTrace(d[j - 2..j], name)
                && d[j - 1].answer == No && VolumeExists(name, No) in d[..j - 2]
      {
        assert rest[j - 1] == d[j] && rest[j - 2] == d[j - 1];
        SliceOfTail(d, j - 3, j - 1);
        SliceOfTail(d, 0, j - 3);
      }
    }
  }

  /** A launch runs its container with its first effect, and only then. */
  lemma LaunchRunsFirst(lifecycle: Lifecycle, d: seq<Effect>, name: Name, result: Outcome)
    requires LaunchTrace(lifecycle, d, name, result)
    ensures forall j :: 0 <= j < |d| && d[j].RunDetachedEffect? ==> j == 0
  {
    forall j | 0 < j < |d| ensures !d[j].RunDetachedEffect? {
      if j >= 2 && d[1].interrupted {
        assert d[j] == d[2..][j - 2];
      } else if j >= 3 {
        assert d[j] == d[3..][j - 3];
        assert j >= 4 ==> d[3..][j - 3] == d[3..][1..][j - 4];
      }
    }
  }

  /** What `restart` does in order, whatever fails: stop, verify, launch only if the old container is gone. */
  lemma RestartIsOrdered(d: seq<Effect>, oldName: Name, name: Name, connect: bool, result: Outcome)
    requires RestartTrace(d, oldName, name, connect, result)
    ensures ReplacementComesLast(d, oldName)
    ensures Stops(d) <==> d != []
    ensures !Stops(d) ==> result == Err(Message)
    ensures result.Ok? ==> |d| >= 3 && d[2] == RunDetachedEffect(name, true, true) && d[1].answer == No
    ensures SawInterrupt(d) ==> result == Err(Message)
  {
    if d != [] {
      assert d[..2][0] == d[0] && d[..2][1] == d[1];
    }
    if |d| > 2 {
      var launch, launched := LaunchPart(RestartServer, d[2..], name, connect, result);
      LaunchRunsFirst(RestartServer, launch, name, launched);
      assert forall j :: 2 <= j < |launch| + 2 ==> d[j] == launch[j - 2];
      if launched.Ok? {
        LaunchSucceeds(RestartServer, launch, name);
      }
      forall j | 0 <= j < |d| && d[j].RunDetachedEffect?
        ensures j >= 2 && StopAndVerifyTrace(d[j - 2..j], oldName) && d[j - 1].answer == No
      {
        assert j == 2;
      }
    }
  }

  lemma FirstCleanupStops(lifecycle: Lifecycle, d: seq<Effect>, name: Name)
    requires InterruptTrace(lifecycle, d, name) && !lifecycle.RestartServer?
    ensures d != [] && d[0].StopContainer?
  {
  }

  lemma CheckPollsOnce(lifecycle: Lifecycle, d: seq<Effect>, name: Name, result: Outcome)
    requires CheckTrace(lifecycle, d, name, result)
    ensures forall j :: 1 <= j < |d| ==> !d[j].PolledFlag?
  {
    var tail := d[1..];
    assert forall j :: 1 <= j < |d| ==> d[j] == tail[j - 1];
    assert |tail| >= 2 ==> tail[..2][0] == tail[0] && tail[..2][1] == tail[1];
  }

  lemma StopsOfPair(a: seq<Effect>, b: seq<Effect>)
    ensures Stops(a + b) <==> Stops(a) || Stops(b)
    ensures Launches(a + b) <==> Launches(a) || Launches(b)
  {
    var all := a + b;
    assert forall j :: 0 <= j < |a| ==> all[j] == a[j];
    assert forall j :: 0 <= j < |b| ==> all[|a| + j] == b[j];
    assert forall j :: |a| <= j < |all| ==> all[j] == b[j - |a|];
  }

  /** The effects of a transient run that got as far as its client. */
  lemma TransientEnds(launch: seq<Effect>, status: Option<ClientStatus>, stop: seq<Effect>, name: Name,
                      result: Outcome)
    requires |launch| == 4 && LaunchTrace(TransientServer, launch, name, Ok(())) && StopAndVerifyTrace(stop, name)
    requires result == ClientOutcome(status, stop[1].answer)
    ensures var d := launch + [RunClient(status)] + stop;
            TransientTrace(d, name, result) && Stops(d) && d[0] == launch[0] && d[1] == launch[1] && d[3] == launch[3]
  {
    var d := launch + [RunClient(status)] + stop;
    assert d[..4] == launch && d[5..] == stop;
    assert d[5].StopContainer?;
  }

  lemma TransientLaunchFails(d: seq<Effect>, name: Name)
    requires LaunchTrace(TransientServer, d, name, Err(Message))
    ensures TransientTrace(d, name, Err(Message))
  {
  }

  lemma StopsFirst(d: seq<Effect>)
    ensures d != [] && d[0].StopContainer? ==> Stops(d)
  {
  }

  lemma NoStopInLaunch(d: seq<Effect>, name: Name)
    requires LaunchTrace(TransientServer, d, name, Ok(()))
    ensures !Stops(d)
  {
    LaunchSucceeds(TransientServer, d, name);
  }

  lemma NothingLaunched(lifecycle: Lifecycle, name: Name)
    ensures LaunchTrace(lifecycle, [], name, Err(Message))
  {
  }

  lemma NoStopInRun(d: seq<Effect>)
    requires |d| == 1 && d[0].RunDetachedEffect?
    ensures !Stops(d)
  {
  }

  /** The run, and a look at the flag that ends the launch or is followed by the failure of the run. */
  lemma FirstCheckIsLaunch(lifecycle: Lifecycle, ran: Effect, checked: seq<Effect>, name: Name)
    requires ran.RunDetachedEffect? && ran.name == name && (ran.ok ==> ran.started)
    requires CheckTrace(lifecycle, checked, name, Err(Message))
             || (CheckTrace(lifecycle, checked, name, Ok(())) && !ran.ok)
    ensures LaunchTrace(lifecycle, [ran] + checked, name, Err(Message))
    ensures var d := [ran] + checked;
            d[1] == checked[0] && (|d| >= 4 ==> !d[3].PolledFlag?)
  {
    var d := [ran] + checked;
    assert d[2..] == checked[1..];
    CheckPollsOnce(lifecycle, checked, name, if checked[0].interrupted then Err(Message) else Ok(()));
    assert |d| >= 4 ==> d[3] == checked[2];
  }

  /** The run, a clear flag, and the wait with what follows it. */
  lemma WaitIsLaunch(lifecycle: Lifecycle, ran: Effect, checked: seq<Effect>, waited: seq<Effect>, name: Name,
                     result: Outcome)
    requires ran.RunDetachedEffect? && ran.name == name && ran.ok && ran.started
    requires CheckTrace(lifecycle, checked, name, Ok(()))
    requires waited != [] && waited[0].WaitedForServer?
    requires AfterWaitTrace(lifecycle, waited[0].outcome, waited[1..], name, result)
    ensures LaunchTrace(lifecycle, [ran] + checked + waited, name, result)
    ensures var d := [ran] + checked + waited;
            d[0] == ran && d[1] == PolledFlag(false) && (|d| >= 4 ==> |waited| >= 2 && d[3] == waited[1])
  {
    var d := [ran] + checked + waited;
    assert d[2] == waited[0] && d[3..] == waited[1..];
  }

  lemma LaunchFailsWithMessage(lifecycle: Lifecycle, d: seq<Effect>, name: Name, result: Outcome)
    requires LaunchTrace(lifecycle, d, name, result) && result.Err?
    ensures result == Err(Message)
  {
  }

  /** A preparation has stored a token, or it has had no effect. */
  lemma TokenOnly(d: seq<Effect>, root: Root)
    requires IsTokenWrite(d, root)
    ensures WithoutToken(d) == [] && !Stops(d) && !Launches(d)
  {
  }

  lemma TokenBefore(token: seq<Effect>, d: seq<Effect>, root: Root)
    requires IsTokenWrite(token, root) && (d != [] ==> !d[0].WriteToken?)
    ensures WithoutToken(token + d) == d
    ensures Stops(token + d) <==> Stops(d)
    ensures Launches(token + d) <==> Launches(d)
  {
    TokenOnly(token, root);
    StopsOfPair(token, d);
    assert token == [] ==> token + d == d;
    assert token != [] ==> (token + d)[1..] == d;
  }

  lemma NothingTransient(name: Name)
    ensures TransientTrace([], name, Err(Message))
  {
  }

  lemma StartStops(d: seq<Effect>, name: Name, connect: bool)
    requires d == [] || d == [VolumeExists(name, Unknown)]
    ensures StartTrace(d, name, connect, Err(Message)) && VolumeRemovalIsSafe(d, name)
  {
  }

  lemma StartLaunches(d: seq<Effect>, launch: seq<Effect>, name: Name, connect: bool, result: Outcome)
    requires d != [] && d[0].VolumeExists? && d[0].name == name && d[0].answer != Unknown && d[1..] == launch
    requires ManagedTrace(StartServer(d[0].answer == Yes), launch, name, connect, result)
    ensures StartTrace(d, name, connect, result) && VolumeRemovalIsSafe(d, name)
  {
    StartIsSafe(d, name, connect, result);
  }

  lemma RestartStops(d: seq<Effect>, oldName: Name, name: Name, connect: bool)
    requires d == [] || (StopAndVerifyTrace(d, oldName) && d[1].answer != No)
    ensures RestartTrace(d, oldName, name, connect, Err(Message))
  {
    assert d != [] ==> d[..2] == d;
  }

  lemma RestartLaunches(d: seq<Effect>, launch: seq<Effect>, oldName: Name, name: Name, connect: bool,
                        result: Outcome)
    requires |d| >= 2 && StopAndVerifyTrace(d[..2], oldName) && d[1].answer == No && d[2..] == launch
    requires ManagedTrace(RestartServer, launch, name, connect, result)
    ensures RestartTrace(d, oldName, name, connect, result)
  {
  }
}
