/**
  The commands on runtime images, each written as the steps that it takes. Between two steps any
  schedule of other commands runs; `ImageProtocol` says what holds over all of them.
*/
module ImageCommands {
  import opened Wrappers
  import opened Runtimes
  import opened ImageContext
  import opened ImageRecord
  import opened ImageProtocol

  /** After this run the record of the runtime is corrupt. */
  predicate CorruptAfter(run: seq<Action>, runtime: RuntimeKind) {
    match Exec(run) case Some(state) => state.world.Record(runtime).Corrupt? case None => false
  }

  /** The scheduled steps of everything but `p` that are possible when their turn comes. */
  function Taken(s: State, p: Pid, schedule: seq<Action>): seq<Action>
    decreases |schedule|
  {
    if schedule == [] then []
    else if (schedule[0].DeleteOutside? || schedule[0].p != p) && Enabled(s, schedule[0]) then
      [schedule[0]] + Taken(Apply(s, schedule[0]), p, schedule[1..])
    else Taken(s, p, schedule[1..])
  }

  lemma TakeOne(s: State, p: Pid, schedule: seq<Action>)
    requires schedule != []
    ensures Taken(s, p, schedule) ==
            if (schedule[0].DeleteOutside? || schedule[0].p != p) && Enabled(s, schedule[0]) then
              [schedule[0]] + Taken(Apply(s, schedule[0]), p, schedule[1..])
            else Taken(s, p, schedule[1..])
  {
    hide Enabled, Apply;
  }

  /** The run after others have done what was scheduled. */
  function Meanwhile(run: seq<Action>, p: Pid, schedule: seq<Action>): seq<Action> {
    match Exec(run) case Some(s) => run + Taken(s, p, schedule) case None => run
  }

  function PcAfter(run: seq<Action>, p: Pid): Option<Pc> {
    match Exec(run) case Some(s) => if p in s.procs then Some(s.procs[p]) else None case None => None
  }

  /** The steps of a build and of its write, with what others do in between. */
  function BuildRun(run: seq<Action>, p: Pid, answers: Answers, afterBuild: seq<Action>): seq<Action> {
    if !answers.buildWorks then run + [End(p)]
    else Meanwhile(run + [Build(p)], p, afterBuild)
         + [if answers.now.Some? then WriteBuilt(p, answers.now.value, answers.write) else End(p)]
  }

  /** The steps of an update that has looked for its image. */
  function UpdateRun(run: seq<Action>, p: Pid, answers: Answers, afterRead: seq<Action>, afterBuild: seq<Action>)
    : seq<Action>
  {
    if !answers.readWorks then run + [End(p)]
    else
      var afterwards := Meanwhile(run + [ReadForUpdate(p)], p, afterRead);
      match PcAfter(run + [ReadForUpdate(p)], p)
      case Some(Refreshing(_, _, _)) =>
        afterwards + [if answers.now.Some? then WriteRefresh(p, answers.now.value, answers.write) else End(p)]
      case Some(_) => BuildRun(afterwards, p, answers, afterBuild)
      case None => run + [ReadForUpdate(p)]
  }

  /** The step of a launch that uses the image as it is. */
  function ReportRun(run: seq<Action>, p: Pid, runtime: RuntimeKind, answers: Answers): seq<Action> {
    run + [if answers.readWorks && !CorruptAfter(run, runtime) then Report(p) else End(p)]
  }

  /** The steps of a cleaning that has removed its image. */
  function CleanRun(run: seq<Action>, p: Pid, runtime: RuntimeKind, answers: Answers, afterRead: seq<Action>)
    : seq<Action>
  {
    if !answers.readWorks || CorruptAfter(run, runtime) then run + [End(p)]
    else match PcAfter(run + [ReadForClean(p)], p)
      case Some(_) =>
        Meanwhile(run + [ReadForClean(p)], p, afterRead)
        + [if answers.removeRecordWorks then RemoveRecord(p) else End(p)]
      case None => run + [ReadForClean(p)]
  }

  /** The images and state files, shared by all commands, and the steps taken so far. */
  class RuntimeImageEnvironment {
    var state: State
    ghost var run: seq<Action>

    constructor ()
      ensures Valid() && state == INITIAL && run == []
    {
      state := INITIAL;
      run := [];
    }

    /** The state is the one that the recorded run leads to. */
    ghost predicate Valid()
      reads this
    {
      Exec(run) == Some(state)
    }

    method Step(a: Action)
      requires Valid() && Enabled(state, a)
      modifies this
      ensures Valid() && run == old(run) + [a] && state == Apply(old(state), a)
    {
      hide Apply, Enabled;
      state := Apply(state, a);
      run := run + [a];
      assert run[..|run| - 1] == old(run);
    }

    /** The scheduled steps of everything but `p` happen, as far as they are possible. */
    method Others(p: Pid, schedule: seq<Action>)
      requires Valid()
      modifies this
      ensures Valid() && old(run) <= run
      ensures p in state.procs <==> p in old(state.procs)
      ensures p in state.procs ==> state.procs[p] == old(state.procs[p])
      ensures schedule == [] ==> state == old(state)
      ensures run == Meanwhile(old(run), p, schedule)
    {
      hide Exec, DefaultImage;
      assert schedule[0..] == schedule;
      for k := 0 to |schedule|
        invariant Valid() && old(run) <= run
        invariant p in state.procs <==> p in old(state.procs)
        invariant p in state.procs ==> state.procs[p] == old(state.procs[p])
        invariant k == 0 ==> state == old(state)
        invariant run + Taken(state, p, schedule[k..]) == old(run) + Taken(old(state), p, schedule)
      {
        TakeOne(state, p, schedule[k..]);
        assert schedule[k..][1..] == schedule[k + 1..];
        if (schedule[k].DeleteOutside? || schedule[k].p != p) && Enabled(state, schedule[k]) {
          Step(schedule[k]);
        }
      }
    }

    /** The record names this image and version; it tells the truth exactly if it is not stale. */
    ghost predicate Records(runtime: RuntimeKind, image: string, version: string)
      requires Valid()
      reads this
    {
      && state.world.Record(runtime).Stored?
      && state.world.Record(runtime).state.image == image
      && state.world.Record(runtime).state.installedVersion == version
      && (image in state.world.images ==>
            (state.world.images[image] == version <==> runtime !in HistoryOf(run).stale))
    }

    lemma RecordsIffNotStale(runtime: RuntimeKind)
      requires Valid() && state.world.Record(runtime).Stored?
      ensures var record := state.world.Record(runtime).state; Records(runtime, record.image, record.installedVersion)
    {
      hide Exec;
      RecordAgreesIffNotStale(run, runtime);
    }

    /** At some point of the run since then the record was corrupt. */
    ghost predicate WasCorrupt(runtime: RuntimeKind, since: nat)
      reads this
    {
      exists k :: since <= k <= |run| && CorruptAfter(run[..k], runtime)
    }

    lemma CorruptNow(runtime: RuntimeKind, since: nat)
      requires Valid() && since <= |run| && state.world.Record(runtime).Corrupt?
      ensures WasCorrupt(runtime, since)
    {
      hide Exec;
      assert run[..|run|] == run;
    }

    /** `build_runtime_image_and_record_state` */
    method BuildAndRecord(p: Pid, answers: Answers, afterBuild: seq<Action>) returns (ok: bool)
      requires Valid() && p in state.procs && state.procs[p].ToBuild?
      modifies this
      ensures Valid() && old(run) <= run && p !in state.procs && |run| > |old(run)|
      ensures ok <==> BuildSucceeds(answers)
      ensures run == BuildRun(old(run), p, answers, afterBuild)
      ensures answers.buildWorks ==> run[|old(run)|] == Build(p)
      ensures var pc := old(state.procs[p]);
              ok ==> Records(pc.runtime, DefaultImage(pc.runtime, pc.contextHash), pc.version)
                     && state.world.Record(pc.runtime).state.latestCheckedAt == answers.now.value
      ensures var pc := old(state.procs[p]);
              afterBuild == [] ==>
                && state.world == BuildStep(old(state.world), pc.runtime, pc.contextHash, pc.version, answers)
                && state.procs == old(state.procs) - {p}
    {
      hide Exec, DefaultImage, HistoryOf;
      ghost var pc := state.procs[p];
      if !answers.buildWorks {
        Step(End(p));
        return false;
      }
      Step(Build(p));
      ghost var first := run;
      Others(p, afterBuild);
      assert run[..|first|] == first;
      if answers.now.None? {
        Step(End(p));
        return false;
      }
      Step(WriteBuilt(p, answers.now.value, answers.write));
      ok := answers.write == Written;
      if ok {
        RecordsIffNotStale(pc.runtime);
      }
    }

    /** `update_default_runtime_image_with`, with other commands at work after each of its looks. */
    method UpdateDefaultRuntimeImage(p: Pid, runtime: RuntimeKind, contextHash: string, answers: Answers,
                                     afterLook: seq<Action>, afterRead: seq<Action>, afterBuild: seq<Action>)
      returns (r: Result<UpdateOutcome, CommandError>)
      requires Valid() && p !in state.procs
      modifies this
      ensures Valid() && old(run) <= run && p !in state.procs
      // its own steps, and those of others in between
      ensures run == if answers.latestVersion.None? || !answers.existsWorks then old(run)
                     else UpdateRun(Meanwhile(old(run) + [BeginUpdate(p, runtime, contextHash,
                                                                     answers.latestVersion.value)], p, afterLook),
                                    p, answers, afterRead, afterBuild)
      ensures var image := DefaultImage(runtime, contextHash);
              r.Ok? ==>
                && answers.latestVersion.Some? && answers.now.Some?
                && r.value in [Rebuilt(image, answers.latestVersion.value),
                               AlreadyUpToDate(image, answers.latestVersion.value)]
                && Records(runtime, image, answers.latestVersion.value)
                && state.world.Record(runtime).state.latestCheckedAt == answers.now.value
      // when everything works it fails only if others have corrupted the record
      ensures r.Ok? ==> answers.existsWorks && answers.readWorks && answers.write == Written
      ensures r.Ok? && r.value.Rebuilt? ==> answers.buildWorks
      ensures answers.latestVersion.Some? && answers.existsWorks && answers.readWorks && BuildSucceeds(answers) ==>
                r.Ok? || WasCorrupt(runtime, |old(run)|)
      // undisturbed
      ensures afterLook == [] && afterRead == [] && afterBuild == [] ==>
                (state.world, r) == Update(old(state.world), runtime, contextHash, answers)
                && state.procs == old(state.procs)
    {
      hide Exec, DefaultImage, WriteRecord, NewState, WithLatestCheck, HistoryOf, BuildStep, Records;
      if answers.latestVersion.None? || !answers.existsWorks {
        return Err(CommandFailed);
      }
      Step(BeginUpdate(p, runtime, contextHash, answers.latestVersion.value));
      Others(p, afterLook);
      r := UpdateAfterLook(p, answers, afterRead, afterBuild);
      assert old(state.procs)[p := SawImage(runtime, contextHash, answers.latestVersion.value,
                                            DefaultImage(runtime, contextHash) in old(state.world.images))] - {p}
          == old(state.procs);
    }

    /** The update from its read of the record on. */
    method UpdateAfterLook(p: Pid, answers: Answers, afterRead: seq<Action>, afterBuild: seq<Action>)
      returns (r: Result<UpdateOutcome, CommandError>)
      requires Valid() && p in state.procs && state.procs[p].SawImage?
      modifies this
      ensures Valid() && old(run) <= run && p !in state.procs
      ensures var pc := old(state.procs[p]);
              var image := DefaultImage(pc.runtime, pc.contextHash);
              r.Ok? ==>
                && answers.now.Some?
                && r.value in [Rebuilt(image, pc.latest), AlreadyUpToDate(image, pc.latest)]
                && Records(pc.runtime, image, pc.latest)
                && state.world.Record(pc.runtime).state.latestCheckedAt == answers.now.value
      ensures run == UpdateRun(old(run), p, answers, afterRead, afterBuild)
      ensures r.Ok? ==> answers.readWorks && answers.write == Written
      ensures r.Ok? && r.value.Rebuilt? ==> answers.buildWorks
      ensures answers.readWorks && BuildSucceeds(answers) ==>
                r.Ok? || WasCorrupt(old(state.procs[p].runtime), |old(run)|)
      ensures var pc := old(state.procs[p]);
              afterRead == [] && afterBuild == [] ==>
                && state.procs == old(state.procs) - {p}
                && (state.world, r) == UpdateFromRead(old(state.world), pc.runtime, pc.contextHash, pc.latest,
                                                      pc.imageExists, answers)
    {
      hide Exec, DefaultImage, HistoryOf, Records, BuildStep, NewState;
      ghost var pc := state.procs[p];
      var image := DefaultImage(state.procs[p].runtime, state.procs[p].contextHash);
      var latest := state.procs[p].latest;
      if !answers.readWorks {
        Step(End(p));
        return Err(CommandFailed);
      }
      Step(ReadForUpdate(p));
      if p !in state.procs {
        CorruptNow(pc.runtime, |old(run)|);
        return Err(CommandFailed);
      }
      Others(p, afterRead);
      if state.procs[p].Refreshing? {
        if answers.now.None? {
          Step(End(p));
          return Err(CommandFailed);
        }
        Step(WriteRefresh(p, answers.now.value, answers.write));
        if answers.write != Written {
          return Err(CommandFailed);
        }
        RecordsIffNotStale(pc.runtime);
        return Ok(AlreadyUpToDate(image, latest));
      }
      var ok := BuildAndRecord(p, answers, afterBuild);
      return if ok then Ok(Rebuilt(image, latest)) else Err(CommandFailed);
    }

    /** `ensure_default_runtime_image_with`: the version is that of the record when the image is there. */
    method EnsureDefaultRuntimeImage(p: Pid, runtime: RuntimeKind, contextHash: string, answers: Answers,
                                     afterLook: seq<Action>, afterBuild: seq<Action>)
      returns (r: Result<Option<string>, CommandError>)
      requires Valid() && p !in state.procs
      modifies this
      ensures Valid() && old(run) <= run && p !in state.procs
      ensures r.Ok? && r.value.Some? ==> Records(runtime, DefaultImage(runtime, contextHash), r.value.value)
      // its own steps, and those of others in between
      ensures run ==
              if !answers.existsWorks then old(run)
              else if DefaultImage(runtime, contextHash) in old(state.world.images) then
                ReportRun(Meanwhile(old(run) + [BeginEnsure(p, runtime, contextHash, "")], p, afterLook), p, runtime,
                          answers)
              else if answers.latestVersion.None? then old(run)
              else BuildRun(Meanwhile(old(run) + [BeginEnsure(p, runtime, contextHash, answers.latestVersion.value)],
                                      p, afterLook), p, answers, afterBuild)
      // an image that is missing when it looks is built; one that is there is used as it is
      ensures var image := DefaultImage(runtime, contextHash);
              image !in old(state.world.images) ==>
                && (r.Ok? <==> answers.existsWorks && answers.latestVersion.Some? && BuildSucceeds(answers))
                && (r.Ok? ==> r.value == answers.latestVersion)
      ensures var image := DefaultImage(runtime, contextHash);
              image in old(state.world.images) ==>
                && (r.Ok? ==> answers.existsWorks && answers.readWorks)
                && (answers.existsWorks && answers.readWorks ==> r.Ok? || WasCorrupt(runtime, |old(run)|))
      // undisturbed
      ensures afterLook == [] && afterBuild == [] ==>
                (state.world, r) == Ensure(old(state.world), runtime, contextHash, answers)
                && state.procs == old(state.procs)
    {
      hide Exec, DefaultImage, HistoryOf, Records, BuildStep, NewState;
      var image := DefaultImage(runtime, contextHash);
      if !answers.existsWorks {
        return Err(CommandFailed);
      }
      if image in state.world.images {
        Step(BeginEnsure(p, runtime, contextHash, ""));
        Others(p, afterLook);
        r := ReportRecorded(p, runtime, contextHash, answers);
        assert afterLook == [] ==> state.procs == old(state.procs);
        return;
      }
      if answers.latestVersion.None? {
        return Err(CommandFailed);
      }
      Step(BeginEnsure(p, runtime, contextHash, answers.latestVersion.value));
      Others(p, afterLook);
      var ok := BuildAndRecord(p, answers, afterBuild);
      assert afterLook == [] && afterBuild == [] ==> state.procs == old(state.procs);
      return if ok then Ok(Some(answers.latestVersion.value)) else Err(CommandFailed);
    }

    /** The image is there: its version is that of the record. */
    method ReportRecorded(p: Pid, runtime: RuntimeKind, contextHash: string, answers: Answers)
      returns (r: Result<Option<string>, CommandError>)
      requires Valid() && p in state.procs && state.procs[p] == Reporting(runtime, contextHash)
      modifies this
      ensures Valid() && old(run) <= run && p !in state.procs
      ensures state.world == old(state.world) && state.procs == old(state.procs) - {p}
      ensures run == ReportRun(old(run), p, runtime, answers)
      ensures r.Ok? && r.value.Some? ==> Records(runtime, DefaultImage(runtime, contextHash), r.value.value)
      ensures r == match ReadRecord(state.world, runtime, answers)
                   case Err(error) => Err(error)
                   case Ok(None) => Ok(None)
                   case Ok(Some(record)) =>
                     Ok(if record.image == DefaultImage(runtime, contextHash) then Some(record.installedVersion)
                        else None)
      ensures r.Ok? ==> answers.readWorks
      ensures answers.readWorks ==> r.Ok? || WasCorrupt(runtime, |old(run)|)
    {
      hide Exec, DefaultImage, HistoryOf, Records;
      if !answers.readWorks || state.world.Record(runtime).Corrupt? {
        Step(End(p));
        if answers.readWorks {
          CorruptNow(runtime, |old(run)|);
        }
        return Err(CommandFailed);
      }
      var record := state.world.Record(runtime);
      Step(Report(p));
      if record.Missing? || record.state.image != DefaultImage(runtime, contextHash) {
        return Ok(None);
      }
      RecordsIffNotStale(runtime);
      return Ok(Some(record.state.installedVersion));
    }

    /** Removal of an image by `clean`, and of its record if it is the one recorded. */
    method RemoveDefaultRuntimeImage(p: Pid, runtime: RuntimeKind, image: string, answers: Answers,
                                     afterImage: seq<Action>, afterRead: seq<Action>) returns (ok: bool)
      requires Valid() && p !in state.procs
      modifies this
      ensures Valid() && old(run) <= run && p !in state.procs
      ensures ok ==> |run| > |old(run)| && run[|old(run)|] == RemoveImage(p, runtime, image)
      // its own steps, and those of others in between
      ensures run == if !answers.removeImageWorks then old(run)
                     else CleanRun(Meanwhile(old(run) + [RemoveImage(p, runtime, image)], p, afterImage), p, runtime,
                                   answers, afterRead)
      // whatever others have done in between, the record that a successful cleaning leaves names another image
      ensures ok ==> !RecordNames(state, runtime, image)
      ensures ok ==> answers.removeImageWorks && answers.readWorks
      ensures answers.removeImageWorks && answers.readWorks && answers.removeRecordWorks ==>
                ok || WasCorrupt(runtime, |old(run)|)
      // undisturbed
      ensures afterImage == [] && afterRead == [] ==>
                (state.world, ok) == Clean(old(state.world), runtime, image, answers)
                && state.procs == old(state.procs)
    {
      hide Exec, DefaultImage, HistoryOf;
      if !answers.removeImageWorks {
        return false;
      }
      Step(RemoveImage(p, runtime, image));
      ghost var first := run;
      Others(p, afterImage);
      ok := RemoveIfImage(p, answers, afterRead);
      assert run[..|first|] == first;
      assert old(state.procs)[p := ImageRemoved(runtime, image)] - {p} == old(state.procs);
    }

    /** `remove_if_image`: others may write the record between its read and its removal. */
    method RemoveIfImage(p: Pid, answers: Answers, afterRead: seq<Action>) returns (ok: bool)
      requires Valid() && p in state.procs && state.procs[p].ImageRemoved?
      modifies this
      ensures Valid() && old(run) <= run && p !in state.procs
      ensures ok ==> !RecordNames(state, old(state.procs[p].runtime), old(state.procs[p].image)) && answers.readWorks
      ensures answers.readWorks && answers.removeRecordWorks ==>
                ok || WasCorrupt(old(state.procs[p].runtime), |old(run)|)
      ensures run == CleanRun(old(run), p, old(state.procs[p].runtime), answers, afterRead)
      ensures afterRead == [] ==> state.procs == old(state.procs) - {p} && state.world.images == old(state.world.images)
      ensures var pc := old(state.procs[p]);
              afterRead == [] ==>
                match ReadRecord(old(state.world), pc.runtime, answers)
                case Err(_) => !ok && state.world == old(state.world)
                case Ok(prior) =>
                  if prior.None? || prior.value.image != pc.image then ok && state.world == old(state.world)
                  else if answers.removeRecordWorks then
                    ok && state.world == old(state.world).WithRecord(pc.runtime, Missing)
                  else !ok && state.world == old(state.world)
    {
      hide Exec, DefaultImage, HistoryOf;
      if !answers.readWorks || state.world.Record(state.procs[p].runtime).Corrupt? {
        Step(End(p));
        if answers.readWorks {
          CorruptNow(old(state.procs[p].runtime), |old(run)|);
        }
        return false;
      }
      Step(ReadForClean(p));
      if p !in state.procs {
        return true;
      }
      Others(p, afterRead);
      if !answers.removeRecordWorks {
        Step(End(p));
        return false;
      }
      Step(RemoveRecord(p));
      return true;
    }
  }
}
