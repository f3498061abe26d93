/**
  The commands start, run, restart and stop, written effect by effect. Every answer of Podman, of a
  client and of the file system is arbitrary, and a SIGINT may arrive before any effect or poll.

  `trace` records the effects in order. `run` records the same execution as steps of
  `TokenLifecycle`, so every state that a command reaches is one that the protocol reaches.
*/
module Commands {
  import opened Wrappers
  import opened Runtimes
  import opened TokenLifecycle
  import opened CommandTraces

  type Containers = map<Name, Container>

  class InterruptedRunCleanup {
    var failures: seq<Issue>
    var cacheVolumeRemoved: bool

    constructor ()
      ensures failures == [] && !cacheVolumeRemoved
    {
      failures := [];
      cacheVolumeRemoved := false;
    }

    method Run(host: Host, name: Name, cacheVolumeExistedBefore: bool, ghost since: nat)
      returns (ghost effects: seq<Effect>)
      requires host.Valid() && failures == [] && !cacheVolumeRemoved
      modifies this, host`clock, host`interrupted, host`world, host`run, host`died, host`volumes, host`trace
      ensures host.Valid() && host.died == old(host.died) && host.FlagSince(old(host.clock), old(host.interrupted))
      ensures host.trace == old(host.trace) + effects && host.clock == old(host.clock) + |effects|
      ensures host.Answered(effects, old(host.clock), since, name in old(host.world).containers,
                            name in old(host.volumes))
      ensures InterruptedStartTrace(effects, name, cacheVolumeExistedBefore)
      ensures host.run == old(host.run) || host.run == old(host.run) + [Vanish(name)]
      ensures host.world == old(host.world)
              || host.world == old(host.world).(containers := old(host.world).containers - {name})
      ensures effects[1].answer == No ==> name !in host.world.containers
      ensures cacheVolumeRemoved <==> |effects| == 3 && effects[2] == RemoveVolume(name, true)
      ensures cacheVolumeRemoved ==> !cacheVolumeExistedBefore && name !in host.world.containers
      ensures host.volumes == if cacheVolumeRemoved then old(host.volumes) - {name} else old(host.volumes)
      ensures failures == CleanupIssues(effects, cacheVolumeExistedBefore)
    {
      hide Exec, NoRestartDies, Host.SignalBetween, Host.Answered, Host.StopAnswered, Cleanup.StopIssue,
           Cleanup.RemainingIssue, CleanupIssues;
      var cleanup;
      cleanup, effects := host.StopAndVerify(name);
      host.StopIsAnswered(effects, old(host.clock), since, name in old(host.world).containers,
                          name in old(host.volumes));
      assert effects[..2] == effects;
      failures := cleanup.StopIssue();
      if cleanup.RemainingIssue().Some? {
        failures := failures + [cleanup.RemainingIssue().value];
      }
      IssuesOfStop(cleanup, effects, name, cacheVolumeExistedBefore);
      if cleanup.verification == Removed {
        if !cacheVolumeExistedBefore {
          ghost var stop, between := effects, host.clock;
          effects := RemoveCacheVolume(host, name, stop, since, old(host.clock), name in old(host.world).containers);
          assert effects == stop + [effects[2]];
          host.SignalsJoin(old(host.clock), between, host.clock);
        }
      } else if !cacheVolumeExistedBefore {
        failures := failures + [VolumeRemovalSkipped];
      }
      assert failures == CleanupIssues(effects, cacheVolumeExistedBefore);
    }

    /** The removal of a new cache volume whose container is gone. */
    method RemoveCacheVolume(host: Host, name: Name, ghost stop: seq<Effect>, ghost since: nat, ghost from: nat,
                             ghost inPlace: bool) returns (ghost effects: seq<Effect>)
      requires host.Valid() && !cacheVolumeRemoved && host.clock == from + 2 && |stop| == 2
      requires StopAndVerifyTrace(stop, name) && stop[1].answer == No
      requires host.Answered(stop, from, since, inPlace, name in host.volumes)
      modifies this, host`clock, host`interrupted, host`volumes, host`trace
      ensures host.Valid() && host.FlagSince(old(host.clock), old(host.interrupted)) && host.clock == from + 3
      ensures |effects| == 3 && effects[..2] == stop && InterruptedStartTrace(effects, name, false)
      ensures host.trace == old(host.trace) + [effects[2]]
      ensures host.Answered(effects, from, since, inPlace, name in old(host.volumes))
      ensures effects[2] == RemoveVolume(name, cacheVolumeRemoved)
      ensures host.volumes == if cacheVolumeRemoved then old(host.volumes) - {name} else old(host.volumes)
      ensures failures == old(failures) + if cacheVolumeRemoved then [] else [VolumeRemovalFailed]
    {
      hide Exec, NoRestartDies, Host.SignalBetween, Host.Answered;
      var removed := host.TryRemoveVolume(name);
      effects := stop + [RemoveVolume(name, removed)];
      assert effects[..2] == stop;
      host.RemovalIsAnswered(stop, removed, name, from, since, inPlace, name in old(host.volumes));
      if removed {
        cacheVolumeRemoved := true;
        assert failures + [] == failures;
      } else {
        failures := failures + [VolumeRemovalFailed];
      }
    }
  }

  class Host {
    const cfg: Config
    const replies: nat -> Reply
    const signals: nat -> bool
    var clock: nat
    /** The flag of the installed `CommandInterrupt`. */
    var interrupted: bool
    var world: State
    ghost var run: seq<Action>
    var volumes: set<Name>
    var trace: seq<Effect>

    /** The roots of which a restart has ended between minting its token and verifying the old container gone. */
    ghost var died: set<Root>

    constructor (cfg: Config, replies: nat -> Reply, signals: nat -> bool)
      ensures this.cfg == cfg && this.replies == replies && this.signals == signals && clock == 0
      ensures Valid() && world == INITIAL && trace == [] && volumes == {} && died == {}
    {
      this.cfg, this.replies, this.signals := cfg, replies, signals;
      clock, interrupted := 0, false;
      world, run, volumes, trace, died := INITIAL, [], {}, [], {};
    }

    ghost predicate Valid()
      reads this
    {
      && Exec(run, cfg) == Some(world)
      && forall r :: r !in died ==> NoRestartDies(run, cfg, r)
    }

    /** A signal arrives while one of these questions is asked. */
    ghost predicate SignalBetween(from: nat, to: nat) {
      exists k :: from <= k < to && signals(k)
    }

    /** The flag is what it was, or a signal has arrived since; nothing clears it. */
    ghost predicate FlagSince(from: nat, before: bool)
      reads this`clock, this`interrupted
    {
      from <= clock && (interrupted <==> before || SignalBetween(from, clock))
    }

    /**
      This effect is the answer to question `at`. The handler was installed at `since`; the container
      was in place before it was stopped, and the volume before it was removed, or not.
    */
    ghost predicate Answers(e: Effect, at: nat, since: nat, inPlace: bool, volumeInPlace: bool) {
      match e
      case PolledFlag(interrupted) => interrupted <==> SignalBetween(since, at + 1)
      case WaitedForServer(outcome) =>
        && (outcome == ServerReady <==> replies(at).wait == BecomesReady)
        && (outcome == WaitInterrupted <==> replies(at).wait == StaysPending && SignalBetween(since, at + 1))
      case StopContainer(_, ok) => ok <==> replies(at).ok
      case ContainerExists(_, answer) =>
        && (answer == Unknown <==> !replies(at).ok)
        && (answer == Yes <==> replies(at).ok && inPlace && at > 0 && !replies(at - 1).changed)
      case RemoveVolume(_, ok) => ok <==> replies(at).ok && volumeInPlace
      case RunClient(status) => status == if replies(at).ok then Some(replies(at).status) else None
      case _ => true
    }

    /** The effects are the answers to the questions from `from` on, one by one. */
    ghost predicate Answered(d: seq<Effect>, from: nat, since: nat, inPlace: bool, volumeInPlace: bool) {
      forall k :: 0 <= k < |d| ==> Answers(d[k], from + k, since, inPlace, volumeInPlace)
    }

    lemma AnsweredJoin(a: seq<Effect>, b: seq<Effect>, from: nat, since: nat, inPlace: bool, volumeInPlace: bool)
      requires Answered(a, from, since, inPlace, volumeInPlace)
      requires Answered(b, from + |a|, since, inPlace, volumeInPlace)
      ensures Answered(a + b, from, since, inPlace, volumeInPlace)
    {
      hide Answers;
      forall k | 0 <= k < |a + b| ensures Answers((a + b)[k], from + k, since, inPlace, volumeInPlace) {
        if k >= |a| {
          assert (a + b)[k] == b[k - |a|];
        }
      }
    }

    /** The answers to a stop and to the question after it. */
    predicate StopAnswered(d: seq<Effect>, from: nat, inPlace: bool) {
      && |d| == 2 && d[0].StopContainer? && d[1].ContainerExists?
      && (d[0].ok <==> replies(from).ok)
      && (d[1].answer == Unknown <==> !replies(from + 1).ok)
      && (d[1].answer == Yes <==> replies(from + 1).ok && inPlace && !replies(from).changed)
    }

    lemma StopIsAnswered(d: seq<Effect>, from: nat, since: nat, inPlace: bool, volumeInPlace: bool)
      requires StopAnswered(d, from, inPlace)
      ensures Answered(d, from, since, inPlace, volumeInPlace)
    {
      hide SignalBetween;
    }

    lemma SignalsJoin(a: nat, b: nat, c: nat)
      requires a <= b <= c
      ensures SignalBetween(a, c) <==> SignalBetween(a, b) || SignalBetween(b, c)
    {
    }

    /** One question to the outside. A signal that has arrived sets the flag, and nothing clears it. */
    method Ask() returns (reply: Reply)
      modifies `clock, `interrupted
      ensures clock == old(clock) + 1 && reply == replies(old(clock))
      ensures FlagSince(old(clock), old(interrupted))
    {
      reply := replies(clock);
      if signals(clock) {
        interrupted := true;
      }
      clock := clock + 1;
    }

    /** `CommandInterrupt::interrupted` */
    method Poll() returns (flag: bool)
      modifies `clock, `interrupted, `trace
      ensures clock == old(clock) + 1 && FlagSince(old(clock), old(interrupted))
      ensures flag == interrupted && trace == old(trace) + [PolledFlag(flag)]
    {
      var _ := Ask();
      flag := interrupted;
      trace := trace + [PolledFlag(flag)];
    }

    method Step(a: Action)
      requires Valid() && Enabled(world, a, cfg)
      modifies `world, `run, `died
      ensures Valid() && run == old(run) + [a] && world == Apply(old(world), a, cfg)
      ensures died == if a.End? && InWindow(old(world), a.r) then old(died) + {a.r} else old(died)
    {
      hide Apply, Enabled, NoRestartDies;
      if a.End? && InWindow(world, a.r) {
        died := died + {a.r};
      }
      world := Apply(world, a, cfg);
      run := run + [a];
      assert run[..|run| - 1] == old(run);
      forall r | r !in died ensures NoRestartDies(run, cfg, r) {
        OneMoreStep(old(run), a, cfg, r);
      }
    }

    /** The command of a root is over: its lock is released. */
    method Finish(r: Root)
      requires Valid() && r in world.ops
      modifies `world, `run, `died
      ensures Valid() && run == old(run) + [End(r)] && world == old(world).(ops := old(world).ops - {r})
      ensures died == if InWindow(old(world), r) then old(died) + {r} else old(died)
    {
      hide Exec, NoRestartDies;
      Step(End(r));
    }

    /** `ManagedContainerCleanup::stop_and_verify` */
    method StopAndVerify(name: Name) returns (cleanup: Cleanup, ghost effects: seq<Effect>)
      requires Valid()
      modifies `clock, `interrupted, `world, `run, `died, `trace
      ensures Valid() && died == old(died) && FlagSince(old(clock), old(interrupted)) && clock == old(clock) + 2
      ensures (run == old(run) || run == old(run) + [Vanish(name)])
      ensures effects == [StopContainer(name, !cleanup.stopFailed),
                          ContainerExists(name, AnswerOf(cleanup.verification))]
      ensures StopAnswered(effects, old(clock), name in old(world).containers)
      ensures trace == old(trace) + effects && StopAndVerifyTrace(effects, name)
      ensures world == if replies(old(clock)).changed && name in old(world).containers
                       then old(world).(containers := old(world).containers - {name}) else old(world)
      ensures cleanup.verification == Removed ==> name !in world.containers
      ensures cleanup.verification == StillExists ==> name in world.containers
    {
      hide Exec, NoRestartDies, SignalBetween;
      var stopped := Ask();
      if stopped.changed && name in world.containers {
        Step(Vanish(name));
      }
      ghost var between := clock;
      var existing := Ask();
      SignalsJoin(old(clock), between, clock);
      var verification := if !existing.ok then VerificationFailed
                          else if name in world.containers then StillExists else Removed;
      cleanup := Cleanup(!stopped.ok, verification);
      effects := [StopContainer(name, stopped.ok), ContainerExists(name, AnswerOf(verification))];
      trace := trace + [StopContainer(name, stopped.ok), ContainerExists(name, AnswerOf(verification))];
    }

    method TryRemoveVolume(name: Name) returns (removed: bool)
      modifies `clock, `interrupted, `volumes, `trace
      ensures trace == old(trace) + [RemoveVolume(name, removed)] && FlagSince(old(clock), old(interrupted))
      ensures clock == old(clock) + 1 && (removed <==> replies(old(clock)).ok && name in old(volumes))
      ensures volumes == if removed then old(volumes) - {name} else old(volumes)
    {
      var reply := Ask();
      removed := reply.ok && name in volumes;
      if removed {
        volumes := volumes - {name};
      }
      trace := trace + [RemoveVolume(name, removed)];
    }

    // -------------------------------------------------------------- detached launch

    /** A taken name is refused; a failing call may have started the container all the same. */
    function DetachedRun(r: Root, containers: Containers, reply: Reply): Effect {
      var taken := cfg.containerName(r) in containers;
      RunDetachedEffect(cfg.containerName(r), !taken && reply.ok, !taken && (reply.ok || reply.changed))
    }

    /**
      `podman run --detach`: refused when the name is taken; a failing call may have started it all the
      same. Afterwards every container of the root that needs the stored token has its hash.
    */
    method RunDetachedContainer(r: Root) returns (ok: bool, ghost effects: seq<Effect>)
      requires Valid() && r in world.ops && (world.ops[r].Prepared? || world.ops[r].RestartCleared?)
      modifies `clock, `interrupted, `world, `run, `died, `volumes, `trace
      ensures Valid() && died == old(died) && FlagSince(old(clock), old(interrupted)) && clock == old(clock) + 1
      ensures r in world.ops && world.ops[r].Launched? && old(run) <= run
      ensures effects == [DetachedRun(r, old(world).containers, replies(old(clock)))]
      ensures trace == old(trace) + effects && ok == effects[0].ok
      ensures world.containers == if effects[0].started
                                  then old(world).containers[cfg.containerName(r) :=
                                                             LaunchedContainer(old(world).ops[r], r, cfg)]
                                  else old(world).containers
      ensures volumes == if effects[0].started then old(volumes) + {cfg.containerName(r)} else old(volumes)
      ensures world.tokens == old(world).tokens && TokenAgrees(world, r, cfg)
    {
      hide Exec, NoRestartDies, SignalBetween;
      var name := cfg.containerName(r);
      LaunchKeepsAgreement(run, world, r, cfg);
      var reply := Ask();
      ok := false;
      var started := name !in world.containers && (reply.ok || reply.changed);
      if started {
        Step(if world.ops[r].Prepared? then RunDetached(r) else RunReplacement(r));
        volumes := volumes + {name};
        ok := reply.ok;
      } else {
        Step(RunDetachedFails(r));
      }
      effects := [RunDetachedEffect(name, ok, started)];
      trace := trace + [RunDetachedEffect(name, ok, started)];
    }

    /** `check_interrupted` of each command: with the flag set, its cleanup and an error. */
    method CheckInterrupted(lifecycle: Lifecycle, name: Name, ghost since: nat)
      returns (r: Outcome, ghost effects: seq<Effect>)
      requires Valid() && FlagSince(since, false)
      modifies `clock, `interrupted, `world, `run, `died, `volumes, `trace
      ensures Valid() && died == old(died) && old(run) <= run && FlagSince(since, false)
      ensures clock == old(clock) + |effects|
      ensures trace == old(trace) + effects && CheckTrace(lifecycle, effects, name, r)
      ensures Answered(effects, old(clock), since, name in old(world).containers, name in old(volumes))
      ensures r == if SignalBetween(since, old(clock) + 1) then Err(Message) else Ok(())
      ensures r.Ok? ==> !interrupted && effects == [PolledFlag(false)]
      ensures r.Ok? ==> volumes == old(volumes) && world == old(world)
      ensures !Stops(effects) ==> world == old(world)
      ensures world.ops == old(world).ops && world.tokens == old(world).tokens
      ensures world.containers == old(world).containers || world.containers == old(world).containers - {name}
      ensures volumes == old(volumes)
              || (lifecycle == StartServer(false) && volumes == old(volumes) - {name})
    {
      hide Exec, NoRestartDies, SignalBetween, Answered;
      SignalsJoin(since, old(clock), old(clock) + 1);
      var flag := Poll();
      effects := [PolledFlag(flag)];
      LookIsAnswered(flag, old(clock), since, name in old(world).containers, name in old(volumes));
      if !flag {
        return Ok(()), effects;
      }
      ghost var cleaned: seq<Effect> := [];
      match lifecycle {
        case TransientServer =>
          var cleanup;
          cleanup, cleaned := StopAndVerify(name);
          StopIsAnswered(cleaned, old(clock) + 1, since, name in old(world).containers, name in old(volumes));
        case StartServer(existed) =>
          var cleanup := new InterruptedRunCleanup();
          cleaned := cleanup.Run(this, name, existed, since);
        case RestartServer =>
          NothingIsAnswered(old(clock) + 1, since, name in old(world).containers, name in old(volumes));
      }
      SignalsJoin(since, old(clock) + 1, clock);
      AnsweredJoin(effects, cleaned, old(clock), since, name in old(world).containers, name in old(volumes));
      effects := effects + cleaned;
      assert effects[1..] == cleaned;
      if !lifecycle.RestartServer? {
        FirstCleanupStops(lifecycle, cleaned, name);
        assert effects[1] == cleaned[0];
      }
      return Err(Message), effects;
    }

    lemma RemovalIsAnswered(stop: seq<Effect>, removed: bool, name: Name, from: nat, since: nat, inPlace: bool,
                            volumeInPlace: bool)
      requires Answered(stop, from, since, inPlace, volumeInPlace)
      requires removed <==> replies(from + |stop|).ok && volumeInPlace
      ensures Answered(stop + [RemoveVolume(name, removed)], from, since, inPlace, volumeInPlace)
    {
      hide SignalBetween;
    }

    lemma LookIsAnswered(flag: bool, at: nat, since: nat, inPlace: bool, volumeInPlace: bool)
      requires flag <==> SignalBetween(since, at + 1)
      ensures Answered([PolledFlag(flag)], at, since, inPlace, volumeInPlace)
    {
    }

    lemma NothingIsAnswered(from: nat, since: nat, inPlace: bool, volumeInPlace: bool)
      ensures Answered([], from, since, inPlace, volumeInPlace)
    {
    }

    /** The effects of a launch are the answers to the questions from `from` on, where the handler is installed. */
    ghost predicate LaunchAnswered(d: seq<Effect>, r: Root, from: nat, containers: Containers, before: set<Name>) {
      d != [] ==>
        var name := cfg.containerName(r);
        && d[0] == DetachedRun(r, containers, replies(from))
        && Answered(d, from, from, name in containers || d[0].started, name in before || d[0].started)
    }

    /** The container is run and the server gets ready, and no signal arrives meanwhile: the questions from `c` on. */
    ghost predicate LaunchWorks(r: Root, containers: Containers, c: nat) {
      && replies(c).ok
      && cfg.containerName(r) !in containers && replies(c + 1).ok
      && replies(c + 3).wait == BecomesReady
      && !SignalBetween(c + 1, c + 5)
    }

    /** A launch succeeds exactly if everything works. */
    lemma LaunchSucceedsIff(lifecycle: Lifecycle, d: seq<Effect>, result: Outcome, r: Root, c: nat,
                            containers: Containers, before: set<Name>)
      requires LaunchTrace(lifecycle, d, cfg.containerName(r), result)
      requires LaunchAnswered(d, r, c + 1, containers, before)
      requires d == [] <==> !replies(c).ok
      ensures result.Ok? <==> LaunchWorks(r, containers, c)
    {
      hide SignalBetween, InterruptTrace, StopAndVerifyTrace;
      SignalsJoin(c + 1, c + 3, c + 5);
      if d != [] && !d[1].interrupted && d[0].ok {
        var tail := d[3..];
        SignalsJoin(c + 1, c + 4, c + 5);
        assert Answers(d[2], c + 3, c + 1, cfg.containerName(r) in containers || d[0].started,
                       cfg.containerName(r) in before || d[0].started);
        if tail != [] {
          assert tail[0] == d[3];
        }
      }
    }

    /** `launch_detached_server` */
    method LaunchDetachedServer(lifecycle: Lifecycle, r: Root) returns (result: Outcome, ghost effects: seq<Effect>)
      requires Valid() && r in world.ops && (world.ops[r].Prepared? || world.ops[r].RestartCleared?)
      modifies `clock, `interrupted, `world, `run, `died, `volumes, `trace
      ensures Valid() && died == old(died) && old(run) <= run
      ensures r in world.ops && !InWindow(world, r) && world.tokens == old(world).tokens
      ensures trace == old(trace) + effects && LaunchTrace(lifecycle, effects, cfg.containerName(r), result)
      // what the outside decides
      ensures effects == [] <==> !replies(old(clock)).ok
      ensures LaunchAnswered(effects, r, old(clock) + 1, old(world).containers, old(volumes))
      ensures clock == old(clock) + 1 + |effects|
      ensures result.Ok? <==> LaunchWorks(r, old(world).containers, old(clock))
      // the container and its token
      ensures TokenAgrees(world, r, cfg)
      ensures effects != [] && effects[0].started && !Stops(effects) ==>
                && cfg.containerName(r) in world.containers
                && world.containers[cfg.containerName(r)] == LaunchedContainer(old(world).ops[r], r, cfg)
      ensures lifecycle != StartServer(false) ==> old(volumes) <= volumes
      ensures old(volumes) - {cfg.containerName(r)} <= volumes
    {
      hide Exec, NoRestartDies, SignalBetween, LaunchTrace, TokenAgrees, LaunchedContainer, LaunchAnswered, Stops,
           LaunchWorks;
      LaunchKeepsAgreement(run, world, r, cfg);
      var installed := Ask();
      effects := [];
      if !installed.ok {
        NothingLaunched(lifecycle, cfg.containerName(r));
        NothingIsLaunched(r, old(clock) + 1, old(world).containers, old(volumes));
        LaunchSucceedsIff(lifecycle, effects, Err(Message), r, old(clock), old(world).containers, old(volumes));
        return Err(Message), effects;
      }
      interrupted := false;
      result, effects := RunAndAwait(lifecycle, r);
      LaunchSucceedsIff(lifecycle, effects, result, r, old(clock), old(world).containers, old(volumes));
    }

    lemma NothingIsLaunched(r: Root, from: nat, containers: Containers, before: set<Name>)
      ensures LaunchAnswered([], r, from, containers, before)
    {
    }

    /** The launch with its interrupt handler installed. */
    method RunAndAwait(lifecycle: Lifecycle, r: Root) returns (result: Outcome, ghost effects: seq<Effect>)
      requires Valid() && r in world.ops && (world.ops[r].Prepared? || world.ops[r].RestartCleared?) && !interrupted
      modifies `clock, `interrupted, `world, `run, `died, `volumes, `trace
      ensures Valid() && died == old(died) && old(run) <= run && clock == old(clock) + |effects|
      ensures r in world.ops && !InWindow(world, r) && world.tokens == old(world).tokens
      ensures trace == old(trace) + effects && LaunchTrace(lifecycle, effects, cfg.containerName(r), result)
      ensures effects != [] && LaunchAnswered(effects, r, old(clock), old(world).containers, old(volumes))
      ensures TokenAgrees(world, r, cfg)
      ensures effects[0].started && !Stops(effects) ==>
                && cfg.containerName(r) in world.containers
                && world.containers[cfg.containerName(r)] == LaunchedContainer(old(world).ops[r], r, cfg)
      ensures lifecycle != StartServer(false) ==> old(volumes) <= volumes
      ensures old(volumes) - {cfg.containerName(r)} <= volumes
    {
      hide Exec, NoRestartDies, SignalBetween, TokenAgrees, LaunchedContainer, LaunchTrace, Stops, Answered;
      var name := cfg.containerName(r);
      var started, ran := RunDetachedContainer(r);
      NoStopInRun(ran);
      ghost var base, inPlace, volumeInPlace := world, name in world.containers, name in volumes;
      NoSignalYet(old(clock));
      RunIsAnswered(ran[0], old(clock), old(clock), inPlace, volumeInPlace);
      ghost var rest;
      result, rest := AwaitDetached(lifecycle, name, started, ran[0], old(clock));
      FewerContainersAgree(base, world, r, name, cfg);
      StopsOfPair(ran, rest);
      AnsweredJoin(ran, rest, old(clock), old(clock), inPlace, volumeInPlace);
      effects := ran + rest;
    }

    lemma NoSignalYet(c: nat)
      ensures !SignalBetween(c, c)
    {
    }

    lemma RunIsAnswered(ran: Effect, at: nat, since: nat, inPlace: bool, volumeInPlace: bool)
      requires ran.RunDetachedEffect?
      ensures Answered([ran], at, since, inPlace, volumeInPlace)
    {
    }

    /** After the detached run has returned: the first look at the flag, its error if it failed, and the wait. */
    method AwaitDetached(lifecycle: Lifecycle, name: Name, started: bool, ghost ran: Effect, ghost since: nat)
      returns (result: Outcome, ghost effects: seq<Effect>)
      requires Valid() && ran.RunDetachedEffect? && ran.name == name && (ran.ok ==> ran.started) && started == ran.ok
      requires FlagSince(since, false)
      modifies `clock, `interrupted, `world, `run, `died, `volumes, `trace
      ensures Valid() && died == old(died) && old(run) <= run && clock == old(clock) + |effects|
      ensures trace == old(trace) + effects && LaunchTrace(lifecycle, [ran] + effects, name, result)
      ensures Answered(effects, old(clock), since, name in old(world).containers, name in old(volumes))
      ensures !Stops(effects) ==> world == old(world)
      ensures world.ops == old(world).ops && world.tokens == old(world).tokens
      ensures world.containers == old(world).containers || world.containers == old(world).containers - {name}
      ensures volumes == old(volumes)
              || (lifecycle == StartServer(false) && volumes == old(volumes) - {name})
    {
      hide Exec, NoRestartDies, SignalBetween, InterruptTrace, AfterWaitTrace, Stops, CheckTrace, LaunchTrace,
           Answered;
      ghost var checked;
      result, checked := CheckInterrupted(lifecycle, name, since);
      effects := checked;
      if result.Err? || !started {
        result := Err(Message);
        FirstCheckIsLaunch(lifecycle, ran, checked, name);
        return;
      }
      ghost var waited;
      result, waited := AwaitReadiness(lifecycle, name, since);
      StopsOfPair(checked, waited);
      WaitIsLaunch(lifecycle, ran, checked, waited, name, result);
      AnsweredJoin(checked, waited, old(clock), since, name in old(world).containers, name in old(volumes));
      effects := checked + waited;
      assert [ran] + checked + waited == [ran] + effects;
    }

    /** From the readiness wait on; the detached run has succeeded and no interrupt was seen yet. */
    method AwaitReadiness(lifecycle: Lifecycle, name: Name, ghost since: nat)
      returns (result: Outcome, ghost effects: seq<Effect>)
      requires Valid() && !interrupted && FlagSince(since, false)
      modifies `clock, `interrupted, `world, `run, `died, `volumes, `trace
      ensures Valid() && died == old(died) && old(run) <= run && clock == old(clock) + |effects|
      ensures trace == old(trace) + effects && effects != [] && effects[0].WaitedForServer?
      ensures AfterWaitTrace(lifecycle, effects[0].outcome, effects[1..], name, result)
      // what the wait reports, and when the launch succeeds
      ensures effects[0].outcome == ServerReady <==> replies(old(clock)).wait == BecomesReady
      ensures effects[0].outcome == WaitInterrupted <==>
                replies(old(clock)).wait == StaysPending && SignalBetween(since, old(clock) + 1)
      ensures Answered(effects, old(clock), since, name in old(world).containers, name in old(volumes))
      ensures result.Ok? <==> replies(old(clock)).wait == BecomesReady && !SignalBetween(since, old(clock) + 2)
      ensures !Stops(effects) ==> world == old(world)
      ensures world.ops == old(world).ops && world.tokens == old(world).tokens
      ensures world.containers == old(world).containers || world.containers == old(world).containers - {name}
      ensures volumes == old(volumes)
              || (lifecycle == StartServer(false) && volumes == old(volumes) - {name})
    {
      hide Exec, NoRestartDies, SignalBetween, AfterWaitTrace, Stops, Answered;
      SignalsJoin(since, old(clock), old(clock) + 1);
      var reply := Ask();
      // the wait looks at the flag in each of its rounds, but no longer once the server is ready or gone
      var outcome := if reply.wait == BecomesReady then ServerReady
                     else if reply.wait == StaysPending && interrupted then WaitInterrupted else WaitFailed;
      trace := trace + [WaitedForServer(outcome)];
      effects := [WaitedForServer(outcome)];
      WaitIsAnswered(outcome, old(clock), since, name in world.containers, name in volumes);
      ghost var rest;
      result, rest := AfterWait(lifecycle, name, outcome, since);
      StopsOfPair(effects, rest);
      AnsweredJoin(effects, rest, old(clock), since, name in old(world).containers, name in old(volumes));
      ghost var all := effects + rest;
      assert all[1..] == rest;
      effects := all;
    }

    /** What a launch does with the outcome of the wait. */
    method AfterWait(lifecycle: Lifecycle, name: Name, outcome: WaitOutcome, ghost since: nat)
      returns (result: Outcome, ghost effects: seq<Effect>)
      requires Valid() && FlagSince(since, false) && (outcome == WaitInterrupted ==> interrupted)
      modifies `clock, `interrupted, `world, `run, `died, `volumes, `trace
      ensures Valid() && died == old(died) && old(run) <= run && clock == old(clock) + |effects|
      ensures trace == old(trace) + effects && AfterWaitTrace(lifecycle, outcome, effects, name, result)
      ensures Answered(effects, old(clock), since, name in old(world).containers, name in old(volumes))
      ensures result.Ok? <==> outcome == ServerReady && !SignalBetween(since, old(clock) + 1)
      ensures !Stops(effects) ==> world == old(world)
      ensures world.ops == old(world).ops && world.tokens == old(world).tokens
      ensures world.containers == old(world).containers || world.containers == old(world).containers - {name}
      ensures volumes == old(volumes)
              || (lifecycle == StartServer(false) && volumes == old(volumes) - {name})
    {
      hide Exec, NoRestartDies, SignalBetween, InterruptTrace, Stops, Answered;
      if outcome != WaitFailed {
        SignalsJoin(since, old(clock), old(clock) + 1);
        // an interrupt that the wait has seen is still there
        result, effects := CheckInterrupted(lifecycle, name, since);
      } else {
        result, effects := Err(Message), [];
        NothingIsAnswered(old(clock), since, name in old(world).containers, name in old(volumes));
        if lifecycle.TransientServer? {
          var cleanup;
          cleanup, effects := StopAndVerify(name);
          StopIsAnswered(effects, old(clock), since, name in old(world).containers, name in old(volumes));
          StopsFirst(effects);
        }
      }
    }

    lemma WaitIsAnswered(outcome: WaitOutcome, at: nat, since: nat, inPlace: bool, volumeInPlace: bool)
      requires outcome == ServerReady <==> replies(at).wait == BecomesReady
      requires outcome == WaitInterrupted <==> replies(at).wait == StaysPending && SignalBetween(since, at + 1)
      ensures Answered([WaitedForServer(outcome)], at, since, inPlace, volumeInPlace)
    {
      hide SignalBetween;
    }

    // -------------------------------------------------------------- transient runs

    /** The launch works, the client exits with zero, and its container is stopped and seen to be gone. */
    ghost predicate TransientWorks(r: Root, containers: Containers, c: nat) {
      && LaunchWorks(r, containers, c)
      && replies(c + 5).ok && replies(c + 5).status == Exited(0)
      && replies(c + 6).changed && replies(c + 7).ok
    }

    /** `TransientRunLaunch::execute` */
    method ExecuteTransientRun(r: Root) returns (result: Outcome, ghost effects: seq<Effect>)
      requires Valid() && r in world.ops && world.ops[r].Prepared?
      modifies `clock, `interrupted, `world, `run, `died, `volumes, `trace
      ensures Valid() && died == old(died) && old(run) <= run
      ensures r in world.ops && !InWindow(world, r) && world.tokens == old(world).tokens
      ensures trace == old(trace) + effects && TransientTrace(effects, cfg.containerName(r), result)
      ensures effects == [] <==> !replies(old(clock)).ok
      ensures LaunchAnswered(effects, r, old(clock) + 1, old(world).containers, old(volumes))
      ensures result.Ok? <==> TransientWorks(r, old(world).containers, old(clock))
      ensures TokenAgrees(world, r, cfg)
      ensures result.Ok? ==> cfg.containerName(r) !in world.containers
      ensures effects != [] && effects[0].started && !Stops(effects) ==> cfg.containerName(r) in world.containers
    {
      hide Exec, NoRestartDies, SignalBetween, LaunchTrace, TokenAgrees, LaunchedContainer, ClientOutcome,
           TransientTrace, Stops, LaunchAnswered, LaunchWorks, StopAnswered;
      var name := cfg.containerName(r);
      result, effects := LaunchDetachedServer(TransientServer, r);
      if result.Err? {
        LaunchFailsWithMessage(TransientServer, effects, name, result);
        TransientLaunchFails(effects, name);
        return;
      }
      OnlySuccess(result);
      LaunchSucceeds(TransientServer, effects, name);
      NoStopInLaunch(effects, name);
      ghost var launch, base, rest := effects, world, [];
      result, rest := RunClientAndFinish(name);
      FewerContainersAgree(base, world, r, name, cfg);
      effects := launch + rest;
      TransientFinishes(launch, rest, r, old(clock) + 1, old(world).containers, old(volumes), result);
    }

    /** A launch that succeeded, then the client and the end of the run. */
    lemma TransientFinishes(launch: seq<Effect>, rest: seq<Effect>, r: Root, from: nat, containers: Containers,
                            before: set<Name>, result: Outcome)
      requires LaunchTrace(TransientServer, launch, cfg.containerName(r), Ok(()))
      requires LaunchAnswered(launch, r, from, containers, before)
      requires |rest| == 3 && rest[0].RunClient? && StopAndVerifyTrace(rest[1..], cfg.containerName(r))
      requires rest[0].status == if replies(from + 4).ok then Some(replies(from + 4).status) else None
      requires StopAnswered(rest[1..], from + 5, true) && result == ClientOutcome(rest[0].status, rest[2].answer)
      ensures TransientTrace(launch + rest, cfg.containerName(r), result) && Stops(launch + rest)
      ensures LaunchAnswered(launch + rest, r, from, containers, before) && launch + rest != []
    {
      hide LaunchTrace, LaunchAnswered, StopAndVerifyTrace, StopAnswered, ClientOutcome, TransientTrace, Stops;
      LaunchSucceeds(TransientServer, launch, cfg.containerName(r));
      assert rest == [rest[0]] + rest[1..];
      assert launch + rest == launch + [RunClient(rest[0].status)] + rest[1..];
      TransientEnds(launch, rest[0].status, rest[1..], cfg.containerName(r), result);
      TransientIsAnswered(launch, rest[0].status, rest[1..], r, from, containers, before);
    }

    /** The client of a transient run, and the end of the run. */
    method RunClientAndFinish(name: Name) returns (result: Outcome, ghost effects: seq<Effect>)
      requires Valid() && name in world.containers
      modifies `clock, `interrupted, `world, `run, `died, `trace
      ensures Valid() && died == old(died) && old(run) <= run && trace == old(trace) + effects
      ensures |effects| == 3 && effects[0].RunClient? && StopAndVerifyTrace(effects[1..], name)
      ensures effects[0].status == if replies(old(clock)).ok then Some(replies(old(clock)).status) else None
      ensures StopAnswered(effects[1..], old(clock) + 1, true)
      ensures result == ClientOutcome(effects[0].status, effects[2].answer)
      ensures var c := old(clock);
              result.Ok? <==> && replies(c).ok && replies(c).status == Exited(0)
                              && replies(c + 1).changed && replies(c + 2).ok
      ensures result.Ok? ==> name !in world.containers
      ensures world == old(world) || world == old(world).(containers := old(world).containers - {name})
    {
      hide Exec, NoRestartDies, SignalBetween, ClientOutcome, StopAnswered;
      var client := Ask();
      var status := if client.ok then Some(client.status) else None;
      trace := trace + [RunClient(status)];
      ghost var stop;
      result, stop := FinishHostClientRun(name, status);
      effects := [RunClient(status)] + stop;
      assert effects[1..] == stop;
    }

    /** The client and the cleanup answer the questions that follow those of the launch. */
    lemma TransientIsAnswered(launch: seq<Effect>, status: Option<ClientStatus>, stop: seq<Effect>, r: Root, from: nat,
                              containers: Containers, before: set<Name>)
      requires |launch| == 4 && LaunchAnswered(launch, r, from, containers, before) && launch[0].started
      requires status == if replies(from + 4).ok then Some(replies(from + 4).status) else None
      requires StopAnswered(stop, from + 5, true)
      ensures LaunchAnswered(launch + [RunClient(status)] + stop, r, from, containers, before)
    {
      hide SignalBetween, DetachedRun, StopAnswered, Answered;
      ClientIsAnswered(status, from + 4, from);
      StopIsAnswered(stop, from + 5, from, true, true);
      AnsweredJoin(launch, [RunClient(status)], from, from, true, true);
      AnsweredJoin(launch + [RunClient(status)], stop, from, from, true, true);
      assert (launch + [RunClient(status)] + stop)[0] == launch[0];
    }

    lemma ClientFollowsLaunch(launch: seq<Effect>, status: Option<ClientStatus>, r: Root, from: nat,
                              containers: Containers, before: set<Name>)
      requires |launch| == 4 && LaunchAnswered(launch, r, from, containers, before) && launch[0].started
      requires status == if replies(from + 4).ok then Some(replies(from + 4).status) else None
      ensures LaunchAnswered(launch + [RunClient(status)], r, from, containers, before)
    {
      hide SignalBetween, DetachedRun, Answered;
      ClientIsAnswered(status, from + 4, from);
      AnsweredJoin(launch, [RunClient(status)], from, from, true, true);
    }

    lemma ClientIsAnswered(status: Option<ClientStatus>, at: nat, since: nat)
      requires status == if replies(at).ok then Some(replies(at).status) else None
      ensures Answered([RunClient(status)], at, since, true, true)
    {
    }

    /** `finish_host_client_run` */
    method FinishHostClientRun(name: Name, status: Option<ClientStatus>)
      returns (result: Outcome, ghost effects: seq<Effect>)
      requires Valid()
      modifies `clock, `interrupted, `world, `run, `died, `trace
      ensures Valid() && died == old(died) && old(run) <= run
      ensures trace == old(trace) + effects && StopAndVerifyTrace(effects, name)
      ensures result == ClientOutcome(status, effects[1].answer)
      ensures StopAnswered(effects, old(clock), name in old(world).containers)
      ensures result.Ok? <==> status == Some(Exited(0)) && replies(old(clock) + 1).ok
                              && (name in old(world).containers ==> replies(old(clock)).changed)
      ensures result.Ok? ==> name !in world.containers
      ensures world == old(world) || world == old(world).(containers := old(world).containers - {name})
    {
      hide Exec, NoRestartDies;
      var cleanup;
      cleanup, effects := StopAndVerify(name);
      var cleaned: Outcome := if cleanup.RemainingFailure().None? then Ok(()) else Err(Message);
      match status {
        case None => result := Err(Message);
        case Some(status) =>
          var failure := ExitFailureOf(status);
          result := if failure.None? then cleaned else Err(IntoErrorWithCleanup(failure.value, cleaned));
      }
    }

    // -------------------------------------------------------------- launch preparation

    /** Only the token of a managed Codex server is stored. */
    static predicate StoresToken(op: Op)
      requires op.Checked? || op.RestartPicked?
    {
      if op.Checked? then op.kind == Managed && op.runtime == Codex else op.session.runtime == Codex
    }

    /** The token is generated and, for a managed server, stored; then the run spec is built. */
    method MintToken(r: Root) returns (result: Outcome, ghost effects: seq<Effect>)
      requires Valid() && r in world.ops && (world.ops[r].Checked? || world.ops[r].RestartPicked?)
      modifies `clock, `interrupted, `world, `run, `died, `trace
      ensures Valid() && died == old(died) && old(run) <= run && r in world.ops && clock == old(clock) + 2
      ensures result == if replies(old(clock)).ok && replies(old(clock) + 1).ok then Ok(()) else Err(Message)
      ensures world.containers == old(world).containers && world.sessions == old(world).sessions
      ensures trace == old(trace) + effects && IsTokenWrite(effects, r)
      // a write that fails may have stored the token all the same
      ensures var mint, stores := replies(old(clock)), StoresToken(old(world).ops[r]);
              if stores && (mint.ok || mint.changed) then
                effects == [WriteToken(r, mint.ok)] && world.tokens == old(world).tokens[r := mint.token]
              else effects == [] && world.tokens == old(world).tokens
      ensures var before, after := old(world).ops[r], world.ops[r];
              if before.Checked? then
                && (after == before
                    || (after.Prepared? && after.kind == before.kind && after.runtime == before.runtime))
                && (result.Ok? ==> after.Prepared?)
              else
                && (after == before || (after.RestartPrepared? && after.session == before.session))
                && (result.Ok? ==> after.RestartPrepared?)
    {
      hide Exec, NoRestartDies;
      var op := world.ops[r];
      effects := [];
      var stored := StoresToken(op);
      var mint := Ask();
      if mint.ok || mint.changed {
        // a failed write may leave part of a token behind
        if stored {
          effects := [WriteToken(r, mint.ok)];
          trace := trace + [WriteToken(r, mint.ok)];
        }
        Step(if op.Checked? then Prepare(r, mint.token) else PrepareReplacement(r, mint.token));
      }
      var spec := Ask();
      result := if mint.ok && spec.ok then Ok(()) else Err(Message);
    }

    /** `ensure_required_resources_absent`, and the checks before it. */
    method EnsureRequiredResourcesAbsent(r: Root, kind: ContainerKind, runtime: RuntimeKind) returns (absent: bool)
      requires Valid() && r !in world.ops
      modifies `clock, `interrupted, `world, `run, `died
      ensures Valid() && died == old(died) && old(run) <= run && clock == old(clock) + 1
      ensures absent <==> replies(old(clock)).ok && !Exists(old(world), r)
      ensures world == if absent then old(world).(ops := old(world).ops[r := Checked(kind, runtime)]) else old(world)
    {
      hide Exec, NoRestartDies, Exists;
      var preflight := Ask();
      absent := preflight.ok && !Exists(world, r);
      if absent {
        Step(BeginLaunch(r, kind, runtime));
      }
    }

    /** The checks of a launch, then the token and the run spec. */
    method PrepareLaunch(r: Root, kind: ContainerKind, runtime: RuntimeKind)
      returns (result: Outcome, ghost effects: seq<Effect>)
      requires Valid() && r !in world.ops
      modifies `clock, `interrupted, `world, `run, `died, `trace
      ensures Valid() && died == old(died) && old(run) <= run
      ensures world.containers == old(world).containers
      ensures trace == old(trace) + effects && IsTokenWrite(effects, r)
      ensures effects != [] ==> kind == Managed && runtime == Codex
      ensures Exists(old(world), r) ==> result.Err? && effects == [] && world == old(world)
      ensures result.Ok? <==>
                && !Exists(old(world), r) && replies(old(clock)).ok && replies(old(clock) + 1).ok
                && replies(old(clock) + 2).ok && replies(old(clock) + 3).ok
      ensures result.Ok? ==> clock == old(clock) + 4
      ensures result.Err? ==> result == Err(Message)
      ensures result.Ok? ==> r in world.ops && world.ops[r].Prepared?
                             && world.ops[r].kind == kind && world.ops[r].runtime == runtime
      ensures result.Err? ==> r !in world.ops
    {
      hide Exec, NoRestartDies, Exists, HasManagedCodex, TokenHash, StopAndVerifyTrace;
      var absent := EnsureRequiredResourcesAbsent(r, kind, runtime);
      if !absent {
        return Err(Message), [];
      }
      var image := Ask();
      if !image.ok {
        Finish(r);
        return Err(Message), [];
      }
      result, effects := MintToken(r);
      if result.Err? {
        Finish(r);
      }
    }

    /** `agentbox run`, from the root lock to its release. It stores no token. */
    method RunCommand(r: Root, runtime: RuntimeKind) returns (result: Outcome, ghost effects: seq<Effect>)
      requires Valid() && r !in world.ops
      modifies `clock, `interrupted, `world, `run, `died, `volumes, `trace
      ensures Valid() && died == old(died) && r !in world.ops && trace == old(trace) + effects
      ensures Exists(old(world), r) ==> result.Err? && world == old(world) && effects == []
      ensures TransientTrace(effects, cfg.containerName(r), result)
      ensures var c := old(clock);
              effects != [] <==> && !Exists(old(world), r) && replies(c).ok && replies(c + 1).ok && replies(c + 2).ok
                                 && replies(c + 3).ok && replies(c + 4).ok
      ensures LaunchAnswered(effects, r, old(clock) + 5, old(world).containers, old(volumes))
      ensures var c := old(clock);
              result.Ok? <==> && !Exists(old(world), r) && replies(c).ok && replies(c + 1).ok && replies(c + 2).ok
                              && replies(c + 3).ok && TransientWorks(r, old(world).containers, c + 4)
      ensures result.Ok? ==> cfg.containerName(r) !in world.containers
      ensures effects != [] && effects[0].started && !Stops(effects) ==> cfg.containerName(r) in world.containers
      ensures !Exists(old(world), r) ==> TokenAgrees(world, r, cfg)
    {
      hide Exec, NoRestartDies, SignalBetween, TransientTrace, Exists, TokenAgrees, Stops, LaunchAnswered, LaunchWorks,
           IsTokenWrite, FlagSince;
      var prepared;
      prepared, effects := PrepareLaunch(r, Run, runtime);
      if prepared.Err? {
        NothingTransient(cfg.containerName(r));
        NothingIsLaunched(r, old(clock) + 5, old(world).containers, old(volumes));
        SameContainersAgree(old(world), world, r, cfg);
        return Err(Message), effects;
      }
      result, effects := ExecuteTransientRun(r);
      ghost var base := world;
      Finish(r);
      FewerContainersAgree(base, world, r, cfg.containerName(r), cfg);
    }

    // -------------------------------------------------------------- managed servers

    lemma LaunchedServes(op: Op, r: Root)
      requires TokenAgrees(world, r, cfg) && cfg.containerName(r) in world.containers
      requires op.Prepared? || op.RestartCleared?
      requires world.containers[cfg.containerName(r)] == LaunchedContainer(op, r, cfg)
      ensures op.RestartCleared? ==> ServesRoot(r, op.session.runtime)
      ensures op.Prepared? && op.kind == Managed ==> ServesRoot(r, op.runtime)
    {
    }

    /** The launch works, and so does the client if there is one. */
    ghost predicate ServerWorks(r: Root, containers: Containers, connect: bool, c: nat) {
      LaunchWorks(r, containers, c) && (connect ==> replies(c + 5).ok && replies(c + 5).status == Exited(0))
    }

    /** `ManagedServerLaunch::execute`: the launch and, if asked for, the host client. */
    method ExecuteManagedLaunch(lifecycle: Lifecycle, r: Root, connect: bool)
      returns (result: Outcome, ghost effects: seq<Effect>)
      requires Valid() && r in world.ops && (world.ops[r].Prepared? || world.ops[r].RestartCleared?)
      modifies `clock, `interrupted, `world, `run, `died, `volumes, `trace
      ensures Valid() && died == old(died) && r in world.ops && !InWindow(world, r)
      ensures trace == old(trace) + effects
      ensures ManagedTrace(lifecycle, effects, cfg.containerName(r), connect, result)
      ensures LaunchAnswered(effects, r, old(clock) + 1, old(world).containers, old(volumes))
      ensures result.Ok? <==> ServerWorks(r, old(world).containers, connect, old(clock))
      ensures world.tokens == old(world).tokens && TokenAgrees(world, r, cfg)
      ensures result.Ok? ==>
                && RunDetachedEffect(cfg.containerName(r), true, true) in effects
                && cfg.containerName(r) in world.containers
                && world.containers[cfg.containerName(r)] == LaunchedContainer(old(world).ops[r], r, cfg)
                && (old(world).ops[r].RestartCleared? ==> ServesRoot(r, old(world).ops[r].session.runtime))
                && (old(world).ops[r].Prepared? && old(world).ops[r].kind == Managed ==>
                      ServesRoot(r, old(world).ops[r].runtime))
      ensures lifecycle != StartServer(false) ==> old(volumes) <= volumes
      ensures old(volumes) - {cfg.containerName(r)} <= volumes
    {
      hide Exec, NoRestartDies, SignalBetween, LaunchTrace, TokenAgrees, LaunchedContainer, LaunchAnswered, LaunchWorks;
      result, effects := LaunchDetachedServer(lifecycle, r);
      if result.Err? {
        LaunchFailsWithMessage(lifecycle, effects, cfg.containerName(r), result);
        return;
      }
      OnlySuccess(result);
      LaunchSucceeds(lifecycle, effects, cfg.containerName(r));
      assert effects[0] in effects;
      LaunchedServes(old(world).ops[r], r);
      if connect {
        ghost var launch := effects;
        var client := Ask();
        var status := if client.ok then Some(client.status) else None;
        trace := trace + [RunClient(status)];
        result := if status == Some(Exited(0)) then Ok(()) else Err(Message);
        effects := launch + [RunClient(status)];
        ClientFollowsLaunch(launch, status, r, old(clock) + 1, old(world).containers, old(volumes));
        assert effects[..4] == launch;
        assert effects[0] in effects;
      }
    }

    /** `agentbox start`, from the root lock to its release. */
    method StartCommand(r: Root, runtime: RuntimeKind, connect: bool)
      returns (result: Outcome, ghost effects: seq<Effect>)
      requires Valid() && r !in world.ops
      modifies `clock, `interrupted, `world, `run, `died, `volumes, `trace
      ensures Valid() && died == old(died) && r !in world.ops && trace == old(trace) + effects
      ensures Exists(old(world), r) ==> result.Err? && world == old(world) && volumes == old(volumes) && effects == []
      ensures StartTrace(WithoutToken(effects), cfg.containerName(r), connect, result)
      // it goes on exactly if no container of the root exists and every check and the preparation succeed
      ensures var c := old(clock);
              WithoutToken(effects) != [] <==>
                && !Exists(old(world), r) && replies(c).ok && replies(c + 1).ok && replies(c + 2).ok
                && replies(c + 3).ok
      ensures var d := WithoutToken(effects);
              d != [] ==> d[0] == LookForVolume(cfg.containerName(r), replies(old(clock) + 4), old(volumes))
      ensures var d := WithoutToken(effects);
              |d| > 1 ==> LaunchAnswered(d[1..], r, old(clock) + 6, old(world).containers, old(volumes))
      ensures var c := old(clock);
              result.Ok? <==> && !Exists(old(world), r) && replies(c).ok && replies(c + 1).ok && replies(c + 2).ok
                              && replies(c + 3).ok && replies(c + 4).ok
                              && ServerWorks(r, old(world).containers, connect, c + 5)
      ensures VolumeRemovalIsSafe(effects, cfg.containerName(r)) && old(volumes) <= volumes
      ensures !Exists(old(world), r) ==> TokenAgrees(world, r, cfg)
      ensures result.Ok? ==>
                RunDetachedEffect(cfg.containerName(r), true, true) in effects && ServesRoot(r, runtime)
    {
      hide Exec, NoRestartDies, SignalBetween, ManagedTrace, Exists, TokenAgrees, Answered, VolumeRemovalIsSafe,
           StartTrace, ServesRoot, InWindow, WithoutToken;
      var name := cfg.containerName(r);
      var prepared;
      ghost var token;
      prepared, token := PrepareLaunch(r, Managed, runtime);
      TokenOnly(token, r);
      effects := token;
      if prepared.Err? {
        StartStops([], name, connect);
        TokenFirst(effects, name);
        SameContainersAgree(old(world), world, r, cfg);
        return Err(Message), effects;
      }
      ghost var d;
      result, d := StartPrepared(r, connect);
      effects := token + d;
      TokenBefore(token, d, r);
      TokenFirst(effects, name);
    }

    /** What the question whether the cache volume exists gives. */
    static function LookForVolume(name: Name, reply: Reply, volumes: set<Name>): Effect {
      VolumeExists(name, if !reply.ok then Unknown else if name in volumes then Yes else No)
    }

    /** `start` after its preparation. */
    method StartPrepared(r: Root, connect: bool) returns (result: Outcome, ghost effects: seq<Effect>)
      requires Valid() && r in world.ops && world.ops[r].Prepared? && world.ops[r].kind == Managed
      modifies `clock, `interrupted, `world, `run, `died, `volumes, `trace
      ensures Valid() && died == old(died) && r !in world.ops && trace == old(trace) + effects
      ensures StartTrace(effects, cfg.containerName(r), connect, result) && effects != [] && !effects[0].WriteToken?
      ensures effects[0] == LookForVolume(cfg.containerName(r), replies(old(clock)), old(volumes))
      ensures |effects| > 1 ==> LaunchAnswered(effects[1..], r, old(clock) + 2, old(world).containers, old(volumes))
      ensures result.Ok? <==> replies(old(clock)).ok && ServerWorks(r, old(world).containers, connect, old(clock) + 1)
      ensures VolumeRemovalIsSafe(effects, cfg.containerName(r)) && old(volumes) <= volumes
      ensures TokenAgrees(world, r, cfg)
      ensures result.Ok? ==> RunDetachedEffect(cfg.containerName(r), true, true) in effects
                             && ServesRoot(r, old(world).ops[r].runtime)
    {
      hide Exec, NoRestartDies, SignalBetween, ManagedTrace, TokenAgrees, LaunchAnswered, LaunchWorks,
           VolumeRemovalIsSafe, StartTrace;
      var name := cfg.containerName(r);
      LaunchKeepsAgreement(run, world, r, cfg);
      var reply := Ask();
      var existed := name in volumes;
      var answer := if !reply.ok then Unknown else if existed then Yes else No;
      trace := trace + [VolumeExists(name, answer)];
      effects := [VolumeExists(name, answer)];
      if !reply.ok {
        StartStops(effects, name, connect);
        FinishLaunch(r);
        return Err(Message), effects;
      }
      ghost var launch;
      result, launch := ExecuteManagedLaunch(StartServer(existed), r, connect);
      effects := effects + launch;
      StartLaunches(effects, launch, name, connect, result);
      FinishLaunch(r);
    }

    /** The container of the root is a managed server of the runtime, and the stored token is its token. */
    predicate ServesRoot(r: Root, runtime: RuntimeKind)
      reads this
    {
      && cfg.containerName(r) in world.containers
      && var c := world.containers[cfg.containerName(r)];
         && c.root == r && c.kind == Managed && c.runtime == runtime
         && (runtime == Codex ==> r in world.tokens && c.tokenSha256 == Some(cfg.sha256(world.tokens[r])))
    }

    /** The end of a command that is past its restart window. */
    method FinishLaunch(r: Root)
      requires Valid() && r in world.ops && !InWindow(world, r) && TokenAgrees(world, r, cfg)
      modifies `world, `run, `died
      ensures Valid() && died == old(died) && r !in world.ops && old(run) <= run
      ensures world.containers == old(world).containers && world.tokens == old(world).tokens
      ensures TokenAgrees(world, r, cfg)
    {
      hide Exec, NoRestartDies, InWindow, TokenAgrees;
      ghost var base := world;
      Finish(r);
      FewerContainersAgree(base, world, r, "", cfg);
    }

    // -------------------------------------------------------------- restart

    /** `stop_existing_session` */
    method StopExistingSession(name: Name) returns (result: Outcome, ghost effects: seq<Effect>)
      requires Valid()
      modifies `clock, `interrupted, `world, `run, `died, `trace
      ensures Valid() && died == old(died) && old(run) <= run && clock == old(clock) + 2
      ensures trace == old(trace) + effects && StopAndVerifyTrace(effects, name)
      ensures result == if effects[1].answer == No then Ok(()) else Err(Message)
      ensures StopAnswered(effects, old(clock), name in old(world).containers)
      ensures result.Ok? ==> world.containers == old(world).containers - {name}
      ensures world.ops == old(world).ops && world.tokens == old(world).tokens
    {
      var cleanup;
      cleanup, effects := StopAndVerify(name);
      result := if cleanup.RemainingFailure().None? then Ok(()) else Err(Message);
    }

    predicate IsManagedSession(s: State, r: Root, name: Name) {
      name in s.containers && s.containers[name].root == r && s.containers[name].kind == Managed
    }

    /** The managed session of this name is found under the root lock. */
    method SelectSession(r: Root, name: Name) returns (picked: bool)
      requires Valid() && r !in world.ops
      modifies `clock, `interrupted, `world, `run, `died
      ensures Valid() && died == old(died) && old(run) <= run && clock == old(clock) + 1
      ensures world.containers == old(world).containers && world.tokens == old(world).tokens
      ensures picked <==> replies(old(clock)).ok && IsManagedSession(old(world), r, name)
      ensures picked ==>
                && name in world.containers && world.containers[name].root == r
                && r in world.ops && world.ops[r] == RestartPicked(Session(name, r, world.containers[name].runtime))
      ensures !picked ==> world == old(world)
    {
      hide Exec, NoRestartDies, Exists, HasManagedCodex;
      var discovered := Ask();
      picked := discovered.ok && IsManagedSession(world, r, name);
      if picked {
        Step(Discover(name));
        Step(BeginRestart(r, Session(name, r, world.containers[name].runtime)));
      }
    }

    /** The checks and the token of a replacement; the old container is not touched. */
    method PrepareRestart(r: Root, name: Name) returns (result: Outcome, ghost effects: seq<Effect>)
      requires Valid() && r !in world.ops
      modifies `clock, `interrupted, `world, `run, `died, `trace
      ensures Valid() && old(run) <= run
      ensures world.containers == old(world).containers
      ensures trace == old(trace) + effects && IsTokenWrite(effects, r)
      ensures result.Ok? <==>
                && replies(old(clock)).ok && IsManagedSession(old(world), r, name)
                && replies(old(clock) + 1).ok && replies(old(clock) + 2).ok && replies(old(clock) + 3).ok
      ensures result.Ok? ==> r in world.ops && world.ops[r].RestartPrepared? && world.ops[r].session.name == name
                             && name in old(world).containers && old(world).containers[name].root == r
                             && world.ops[r].session.runtime == old(world).containers[name].runtime
                             && died == old(died) && clock == old(clock) + 4
      ensures result.Err? ==> r !in world.ops && old(died) <= died <= old(died) + {r}
    {
      hide Exec, NoRestartDies, Exists, HasManagedCodex, TokenHash, StopAndVerifyTrace;
      var picked := SelectSession(r, name);
      if !picked {
        return Err(Message), [];
      }
      var image := Ask();
      if !image.ok {
        Finish(r);
        return Err(Message), [];
      }
      result, effects := MintToken(r);
      if result.Err? {
        Finish(r);
      }
    }

    /** The effects of a restart are the answers to the questions from `from` on. */
    ghost predicate RestartAnswered(d: seq<Effect>, r: Root, name: Name, from: nat, containers: Containers,
                                    before: set<Name>) {
      && (d != [] ==> |d| >= 2 && StopAnswered(d[..2], from, name in containers))
      && (|d| > 2 ==> LaunchAnswered(d[2..], r, from + 3, containers - {name}, before))
    }

    lemma NothingIsRestarted(r: Root, name: Name, from: nat, containers: Containers, before: set<Name>)
      ensures RestartAnswered([], r, name, from, containers, before)
    {
    }

    /** `agentbox restart`, from the root lock to its release. */
    method RestartCommand(r: Root, name: Name, connect: bool) returns (result: Outcome, ghost effects: seq<Effect>)
      requires Valid() && r !in world.ops
      modifies `clock, `interrupted, `world, `run, `died, `volumes, `trace
      ensures Valid() && r !in world.ops && trace == old(trace) + effects && old(volumes) <= volumes
      ensures RestartTrace(WithoutToken(effects), name, cfg.containerName(r), connect, result)
      // it goes on exactly if the session is found and every check and the preparation succeed
      ensures var c := old(clock);
              WithoutToken(effects) != [] <==>
                && replies(c).ok && IsManagedSession(old(world), r, name) && replies(c + 1).ok && replies(c + 2).ok
                && replies(c + 3).ok
      ensures RestartAnswered(WithoutToken(effects), r, name, old(clock) + 4, old(world).containers, old(volumes))
      ensures var c := old(clock);
              result.Ok? <==>
                && replies(c).ok && IsManagedSession(old(world), r, name) && replies(c + 1).ok && replies(c + 2).ok
                && replies(c + 3).ok && replies(c + 4).changed && replies(c + 5).ok
                && ServerWorks(r, old(world).containers - {name}, connect, c + 6)
      ensures ReplacementComesLast(WithoutToken(effects), name)
      // a failure before the stop leaves the containers unchanged
      ensures !Stops(effects) ==> result.Err? && world.containers == old(world).containers
      // once the replacement was tried, or the restart has succeeded, the token is that of the server
      ensures result.Ok? || Launches(effects) ==> died == old(died) && TokenAgrees(world, r, cfg)
      ensures result.Ok? ==>
                && RunDetachedEffect(cfg.containerName(r), true, true) in effects
                && name in old(world).containers && ServesRoot(r, old(world).containers[name].runtime)
    {
      hide Exec, NoRestartDies, SignalBetween, Stops, Launches, ReplacementComesLast, ManagedTrace, TokenAgrees,
           RestartAnswered, RestartTrace, ServesRoot, InWindow, WithoutToken, IsTokenWrite, StopAndVerifyTrace,
           LaunchWorks;
      var own := cfg.containerName(r);
      var prepared;
      ghost var token;
      prepared, token := PrepareRestart(r, name);
      TokenOnly(token, r);
      effects := token;
      if prepared.Err? {
        RestartStops([], name, own, connect);
        RestartIsOrdered([], name, own, connect, Err(Message));
        NothingIsRestarted(r, name, old(clock) + 4, old(world).containers, old(volumes));
        return Err(Message), effects;
      }
      ghost var d;
      result, d := RestartPrepared(r, name, connect);
      effects := token + d;
      TokenBefore(token, d, r);
      RestartIsOrdered(d, name, own, connect, result);
    }

    /** `restart` after its preparation. */
    method RestartPrepared(r: Root, name: Name, connect: bool) returns (result: Outcome, ghost effects: seq<Effect>)
      requires Valid() && r in world.ops && world.ops[r].RestartPrepared? && world.ops[r].session.name == name
      modifies `clock, `interrupted, `world, `run, `died, `volumes, `trace
      ensures Valid() && r !in world.ops && trace == old(trace) + effects && old(volumes) <= volumes
      ensures RestartTrace(effects, name, cfg.containerName(r), connect, result)
      ensures effects != [] && !effects[0].WriteToken?
      ensures RestartAnswered(effects, r, name, old(clock), old(world).containers, old(volumes))
      ensures var c := old(clock);
              result.Ok? <==> && (name in old(world).containers ==> replies(c).changed) && replies(c + 1).ok
                              && ServerWorks(r, old(world).containers - {name}, connect, c + 2)
      ensures result.Ok? || Launches(effects) ==> died == old(died) && TokenAgrees(world, r, cfg)
      ensures result.Ok? ==> RunDetachedEffect(cfg.containerName(r), true, true) in effects
                             && ServesRoot(r, old(world).ops[r].session.runtime)
    {
      hide Exec, NoRestartDies, SignalBetween, ManagedTrace, TokenAgrees, LaunchAnswered, RestartTrace, ServesRoot,
           InWindow, LaunchWorks;
      var own := cfg.containerName(r);
      result, effects := StopExistingSession(name);
      if result.Err? {
        RestartStops(effects, name, own, connect);
        assert effects[..2] == effects;
        Finish(r);
        return;
      }
      ghost var stop, launch := effects, [];
      result, launch := LaunchReplacement(r, name, connect);
      effects := stop + launch;
      assert effects[..2] == stop;
      RestartLaunches(effects, launch, name, own, connect, result);
    }

    /** The old container is gone: the replacement is launched. */
    method LaunchReplacement(r: Root, name: Name, connect: bool) returns (result: Outcome, ghost effects: seq<Effect>)
      requires Valid() && r in world.ops && world.ops[r].RestartPrepared? && world.ops[r].session.name == name
      requires name !in world.containers
      modifies `clock, `interrupted, `world, `run, `died, `volumes, `trace
      ensures Valid() && died == old(died) && r !in world.ops && old(volumes) <= volumes
      ensures trace == old(trace) + effects
      ensures ManagedTrace(RestartServer, effects, cfg.containerName(r), connect, result)
      ensures LaunchAnswered(effects, r, old(clock) + 1, old(world).containers, old(volumes))
      ensures result.Ok? <==> ServerWorks(r, old(world).containers, connect, old(clock))
      ensures TokenAgrees(world, r, cfg)
      ensures result.Ok? ==> RunDetachedEffect(cfg.containerName(r), true, true) in effects
                             && ServesRoot(r, old(world).ops[r].session.runtime)
    {
      hide Exec, NoRestartDies, SignalBetween, ManagedTrace, TokenAgrees, Answered, LaunchedContainer;
      Step(VerifyOldGone(r));
      result, effects := ExecuteManagedLaunch(RestartServer, r, connect);
      FinishLaunch(r);
    }

    // -------------------------------------------------------------- stop

    /** `cleanup_managed_container`: the token goes only once the container is verified gone. */
    method CleanupManagedContainer(session: Session) returns (failed: bool, ghost effects: seq<Effect>)
      requires Valid() && session.root !in world.ops && session in world.sessions
      modifies `clock, `interrupted, `world, `run, `died, `trace
      ensures Valid() && died == old(died) && session.root !in world.ops && old(run) <= run
      ensures trace == old(trace) + effects && StopAndVerifyTrace(effects, session.name)
      ensures failed <==> effects[1].answer != No
      ensures StopAnswered(effects, old(clock), session.name in old(world).containers)
      ensures !failed ==> session.name !in world.containers
      // the token is gone exactly if the container is, the runtime has one and its removal works
      ensures world.tokens == if !failed && session.runtime == Codex && replies(old(clock) + 2).ok
                              then old(world).tokens - {session.root} else old(world).tokens
      ensures world.sessions == old(world).sessions
    {
      hide Exec, NoRestartDies, Exists, HasManagedCodex, TokenHash;
      Step(BeginStop(session.root, session));
      var cleanup;
      cleanup, effects := StopAndVerify(session.name);
      failed := cleanup.RemainingFailure().Some?;
      if failed {
        Finish(session.root);
      } else {
        RemoveStoredToken(session);
      }
    }

    /** `remove_codex_attach_token_for_session`: an error of the removal is ignored. */
    method RemoveStoredToken(session: Session)
      requires Valid() && session.root in world.ops && world.ops[session.root] == StopPicked(session)
      requires session.name !in world.containers
      modifies `clock, `interrupted, `world, `run, `died
      ensures Valid() && died == old(died) && session.root !in world.ops && old(run) <= run
      ensures world.tokens == if session.runtime == Codex && replies(old(clock)).ok
                              then old(world).tokens - {session.root} else old(world).tokens
      ensures world.containers == old(world).containers && world.sessions == old(world).sessions
    {
      hide Exec, NoRestartDies, Exists, HasManagedCodex, TokenHash;
      Step(VerifyStopped(session.root));
      var removed := Ask();
      if removed.ok {
        Step(RemoveToken(session.root));
      } else {
        Finish(session.root);
      }
    }
  }

  /** Before a launch no container of the root exists, and its own container gets the stored token. */
  lemma LaunchKeepsAgreement(run: seq<Action>, s: State, r: Root, cfg: Config)
    requires Exec(run, cfg) == Some(s) && r in s.ops && (s.ops[r].Prepared? || s.ops[r].RestartCleared?)
    ensures TokenAgrees(s, r, cfg)
    ensures forall t: State | t.tokens == s.tokens &&
              t.containers == s.containers[cfg.containerName(r) := LaunchedContainer(s.ops[r], r, cfg)] ::
              TokenAgrees(t, r, cfg)
    ensures forall t: State | t.tokens == s.tokens && t.containers == s.containers :: TokenAgrees(t, r, cfg)
  {
    OrderedRun(run, cfg);
    assert OpKnows(s, r, cfg);
  }

  lemma OnlySuccess(result: Outcome)
    requires result.Ok?
    ensures result == Ok(())
  {
    match result.value {
      case () =>
    }
  }

  lemma SameContainersAgree(s: State, t: State, r: Root, cfg: Config)
    requires t.containers == s.containers
    ensures !Exists(s, r) ==> TokenAgrees(t, r, cfg)
  {
  }

  /** Containers that are gone do not disagree. */
  lemma FewerContainersAgree(s: State, t: State, r: Root, name: Name, cfg: Config)
    requires TokenAgrees(s, r, cfg) && t.tokens == s.tokens
    requires t.containers == s.containers || t.containers == s.containers - {name}
    ensures TokenAgrees(t, r, cfg)
  {
  }

  /** The container that a prepared launch is about to start. */
  function LaunchedContainer(op: Op, r: Root, cfg: Config): Container
    requires op.Prepared? || op.RestartCleared?
  {
    if op.Prepared? then Container(r, op.kind, op.runtime, TokenHash(op.token, cfg))
    else Container(r, Managed, op.session.runtime, TokenHash(op.token, cfg))
  }

  /** The execution in which `run` leaves a container behind: podman fails after the container came up. */
  method LeaveContainerBehind(cfg: Config, r: Root) returns (host: Host)
    ensures host.Valid() && r !in host.world.ops
    ensures host.trace == [RunDetachedEffect(cfg.containerName(r), false, true), PolledFlag(false)]
    ensures cfg.containerName(r) in host.world.containers
  {
    var replies := (k: nat) => Reply(k != 5, true, Signaled, GivesUp, "");
    host := new Host(cfg, replies, (k: nat) => false);
    assert !Exists(host.world, r);
    var result, effects := host.RunCommand(r, Opencode);
    assert !host.SignalBetween(5, 7);
    assert host.Answers(effects[1], 6, 5, true, true);
    assert !effects[1].interrupted && |effects| == 2;
  }

  lemma OneMoreStep(run: seq<Action>, a: Action, cfg: Config, r: Root)
    requires Exec(run, cfg).Some? && NoRestartDies(run, cfg, r)
    requires a == End(r) ==> !InWindow(Exec(run, cfg).value, r)
    ensures NoRestartDies(run + [a], cfg, r)
  {
    var more := run + [a];
    forall k | 0 <= k < |more| && more[k] == End(r)
      ensures match Exec(more[..k], cfg) case Some(s) => !InWindow(s, r) case None => true
    {
      assert more[..k] == run[..k];
      assert k == |run| ==> run[..k] == run;
    }
  }
}
