/**
  The commands that build, refresh and clean runtime images, step by step. Nothing keeps two of them
  apart: an update takes no lock, a build on demand holds the lock of its own git root only, and all of
  them share one state file per runtime. So any number of them interleave here, each may fail or die at
  any point, and images may be deleted behind their backs.

  The question is when a state file tells the version that was last built into the image it names.
*/
module ImageProtocol {
  import opened Wrappers
  import opened Runtimes
  import opened ImageContext
  import opened ImageRecord

  type Pid = nat

  /** Where a command has got to, and what it has seen on the way. */
  datatype Pc =
    | SawImage(runtime: RuntimeKind, contextHash: string, latest: string, imageExists: bool)
    | Refreshing(runtime: RuntimeKind, read: ImageState, latest: string)      // will write back what it has read
    | ToBuild(runtime: RuntimeKind, contextHash: string, version: string)
    | Built(runtime: RuntimeKind, contextHash: string, version: string)       // built, not yet recorded
    | Reporting(runtime: RuntimeKind, contextHash: string)                    // a launch that uses the image as it is
    | ImageRemoved(runtime: RuntimeKind, image: string)
    | RecordMatched(runtime: RuntimeKind, image: string)

  datatype State = State(world: World, procs: map<Pid, Pc>)

  const INITIAL := State(World(map[], Missing, Missing), map[])

  datatype Action =
    | BeginUpdate(p: Pid, runtime: RuntimeKind, contextHash: string, latest: string)
    | ReadForUpdate(p: Pid)
    | BeginEnsure(p: Pid, runtime: RuntimeKind, contextHash: string, latest: string)
    | Report(p: Pid)
    | Build(p: Pid)
    | WriteBuilt(p: Pid, now: nat, outcome: WriteOutcome)
    | WriteRefresh(p: Pid, now: nat, outcome: WriteOutcome)
    | RemoveImage(p: Pid, runtime: RuntimeKind, image: string)
    | ReadForClean(p: Pid)
    | RemoveRecord(p: Pid)
    | End(p: Pid)
    | DeleteOutside(image: string)

  predicate Enabled(s: State, a: Action) {
    match a
    case BeginUpdate(p, _, _, _) => p !in s.procs
    case ReadForUpdate(p) => p in s.procs && s.procs[p].SawImage?
    case BeginEnsure(p, _, _, _) => p !in s.procs
    case Report(p) => p in s.procs && s.procs[p].Reporting?
    case Build(p) => p in s.procs && s.procs[p].ToBuild?
    case WriteBuilt(p, _, _) => p in s.procs && s.procs[p].Built?
    case WriteRefresh(p, _, _) => p in s.procs && s.procs[p].Refreshing?
    case RemoveImage(p, _, _) => p !in s.procs
    case ReadForClean(p) => p in s.procs && s.procs[p].ImageRemoved?
    case RemoveRecord(p) => p in s.procs && s.procs[p].RecordMatched?
    case End(p) => p in s.procs
    case DeleteOutside(_) => true
  }

  function Prior(file: StateFile): Option<ImageState> {
    match file case Stored(state) => Some(state) case _ => None
  }

  function FileAfterWrite(file: StateFile, state: ImageState, outcome: WriteOutcome): StateFile {
    match outcome case Written => Stored(state) case KeptOld => file case Truncated => Corrupt
  }

  function WriteBack(s: State, p: Pid, state: ImageState, outcome: WriteOutcome): State
    requires p in s.procs
  {
    var runtime := s.procs[p].runtime;
    State(s.world.WithRecord(runtime, FileAfterWrite(s.world.Record(runtime), state, outcome)), s.procs - {p})
  }

  function Apply(s: State, a: Action): State
    requires Enabled(s, a)
  {
    match a
    case BeginUpdate(p, runtime, contextHash, latest) =>
      var imageExists := DefaultImage(runtime, contextHash) in s.world.images;
      s.(procs := s.procs[p := SawImage(runtime, contextHash, latest, imageExists)])
    case ReadForUpdate(p) =>
      var pc := s.procs[p];
      var file := s.world.Record(pc.runtime);
      if file.Corrupt? then s.(procs := s.procs - {p})
      else (match PlanUpdate(pc.runtime, pc.contextHash, pc.latest, pc.imageExists, Prior(file))
            case RefreshState(state) => s.(procs := s.procs[p := Refreshing(pc.runtime, state, pc.latest)])
            case Rebuild => s.(procs := s.procs[p := ToBuild(pc.runtime, pc.contextHash, pc.latest)]))
    case BeginEnsure(p, runtime, contextHash, latest) =>
      s.(procs := s.procs[p := if DefaultImage(runtime, contextHash) in s.world.images
                               then Reporting(runtime, contextHash) else ToBuild(runtime, contextHash, latest)])
    case Report(p) => s.(procs := s.procs - {p})
    case Build(p) =>
      var pc := s.procs[p];
      State(s.world.(images := s.world.images[DefaultImage(pc.runtime, pc.contextHash) := pc.version]),
            s.procs[p := Built(pc.runtime, pc.contextHash, pc.version)])
    case WriteBuilt(p, now, outcome) =>
      var pc := s.procs[p];
      WriteBack(s, p, NewState(pc.runtime, pc.contextHash, pc.version, now, now), outcome)
    case WriteRefresh(p, now, outcome) =>
      var pc := s.procs[p];
      WriteBack(s, p, WithLatestCheck(pc.read, pc.latest, now), outcome)
    case RemoveImage(p, runtime, image) =>
      State(s.world.(images := s.world.images - {image}), s.procs[p := ImageRemoved(runtime, image)])
    case ReadForClean(p) =>
      var pc := s.procs[p];
      var prior := Prior(s.world.Record(pc.runtime));
      if prior.Some? && prior.value.image == pc.image
      then s.(procs := s.procs[p := RecordMatched(pc.runtime, pc.image)]) else s.(procs := s.procs - {p})
    case RemoveRecord(p) =>
      State(s.world.WithRecord(s.procs[p].runtime, Missing), s.procs - {p})
    case End(p) => s.(procs := s.procs - {p})
    case DeleteOutside(image) => s.(world := s.world.(images := s.world.images - {image}))
  }

  function Exec(run: seq<Action>): Option<State> {
    if run == [] then Some(INITIAL)
    else match Exec(run[..|run| - 1])
      case None => None
      case Some(before) =>
        if Enabled(before, run[|run| - 1]) then Some(Apply(before, run[|run| - 1])) else None
  }

  // ---------------------------------------------------------------- pending writes

  /** The command is going to write a state that it has made already. */
  predicate IsPending(pc: Pc) {
    pc.Built? || pc.Refreshing?
  }

  function PendingImage(pc: Pc): string
    requires IsPending(pc)
  {
    if pc.Built? then DefaultImage(pc.runtime, pc.contextHash) else pc.read.image
  }

  function PendingVersion(pc: Pc): string
    requires IsPending(pc)
  {
    if pc.Built? then pc.version else pc.read.installedVersion
  }

  predicate IsPendingFor(s: State, p: Pid, image: string) {
    p in s.procs && IsPending(s.procs[p]) && PendingImage(s.procs[p]) == image
  }

  predicate RecordNames(s: State, runtime: RuntimeKind, image: string) {
    s.world.Record(runtime).Stored? && s.world.Record(runtime).state.image == image
  }

  // ---------------------------------------------------------------- the exact condition

  /**
    What a run has done to the records. A record is stale once its image was built with another version
    after it, or once a command wrote it that had been overtaken: since that command had built the image
    or read the record, another one has built the image with another version.
  */
  datatype History = History(stale: set<RuntimeKind>, overtaken: set<Pid>)

  const FRESH := History({}, {})

  function With<T>(s: set<T>, x: T, member: bool): set<T> {
    if member then s + {x} else s - {x}
  }

  function AfterBuild(s: State, image: string, version: string, p: Pid, h: History): History {
    History(set runtime: RuntimeKind | if RecordNames(s, runtime, image)
                                       then s.world.Record(runtime).state.installedVersion != version
                                       else runtime in h.stale,
            set q | q in s.procs && q != p && if IsPendingFor(s, q, image) then PendingVersion(s.procs[q]) != version
                                              else q in h.overtaken)
  }

  function AfterDeletion(s: State, image: string, h: History): History {
    History(set runtime | runtime in h.stale && !RecordNames(s, runtime, image),
            set q | q in h.overtaken && !IsPendingFor(s, q, image))
  }

  function AfterWrite(runtime: RuntimeKind, p: Pid, outcome: WriteOutcome, h: History): History {
    History(match outcome
            case Written => With(h.stale, runtime, p in h.overtaken)
            case KeptOld => h.stale
            case Truncated => h.stale - {runtime},
            h.overtaken - {p})
  }

  function NextHistory(s: State, a: Action, h: History): History
    requires Enabled(s, a)
  {
    match a
    case Build(p) =>
      var pc := s.procs[p];
      AfterBuild(s, DefaultImage(pc.runtime, pc.contextHash), pc.version, p, h)
    case WriteBuilt(p, _, outcome) => AfterWrite(s.procs[p].runtime, p, outcome, h)
    case WriteRefresh(p, _, outcome) => AfterWrite(s.procs[p].runtime, p, outcome, h)
    case RemoveImage(_, _, image) => AfterDeletion(s, image, h)
    case DeleteOutside(image) => AfterDeletion(s, image, h)
    case RemoveRecord(p) => h.(stale := h.stale - {s.procs[p].runtime})
    // a command that reads a stale record in order to write it back is overtaken from the start
    case ReadForUpdate(p) =>
      var procs := Apply(s, a).procs;
      h.(overtaken := With(h.overtaken, p, p in procs && procs[p].Refreshing? && s.procs[p].runtime in h.stale))
    case End(p) => h.(overtaken := h.overtaken - {p})
    case _ => h
  }

  function HistoryOf(run: seq<Action>): History
    requires Exec(run).Some?
  {
    if run == [] then FRESH
    else
      var before := run[..|run| - 1];
      NextHistory(Exec(before).value, run[|run| - 1], HistoryOf(before))
  }

  predicate IsOutdated(s: State, p: Pid) {
    && p in s.procs && IsPending(s.procs[p])
    && PendingImage(s.procs[p]) in s.world.images
    && s.world.images[PendingImage(s.procs[p])] != PendingVersion(s.procs[p])
  }

  ghost predicate IsExact(s: State, h: History) {
    && (forall runtime :: runtime in h.stale <==> !RecordAgrees(s.world, runtime))
    && (forall p :: p in h.overtaken <==> IsOutdated(s, p))
  }

  lemma ExactRecords(s: State, a: Action, h: History, runtime: RuntimeKind)
    requires IsExact(s, h) && Enabled(s, a)
    ensures runtime in NextHistory(s, a, h).stale <==> !RecordAgrees(Apply(s, a).world, runtime)
  {
    hide DefaultImage;
  }

  lemma ExactPending(s: State, a: Action, h: History, p: Pid)
    requires IsExact(s, h) && Enabled(s, a)
    ensures p in NextHistory(s, a, h).overtaken <==> IsOutdated(Apply(s, a), p)
  {
    hide DefaultImage;
  }

  lemma {:induction false} HistoryIsExact(run: seq<Action>)
    requires Exec(run).Some?
    ensures IsExact(Exec(run).value, HistoryOf(run))
  {
    if run != [] {
      var before, a := run[..|run| - 1], run[|run| - 1];
      HistoryIsExact(before);
      var s, h := Exec(before).value, HistoryOf(before);
      var t, g := Exec(run).value, HistoryOf(run);
      forall runtime ensures runtime in g.stale <==> !RecordAgrees(t.world, runtime) {
        ExactRecords(s, a, h, runtime);
      }
      forall p ensures p in g.overtaken <==> IsOutdated(t, p) {
        ExactPending(s, a, h, p);
      }
    }
  }

  /** The exact condition, in every interleaving: the record disagrees with the images if and only if it is stale. */
  lemma RecordAgreesIffNotStale(run: seq<Action>, runtime: RuntimeKind)
    requires Exec(run).Some?
    ensures RecordAgrees(Exec(run).value.world, runtime) <==> runtime !in HistoryOf(run).stale
  {
    HistoryIsExact(run);
  }

  /**
    The steps that break an agreement: a build of the recorded image with another version, or a write
    that lands although another command has built the image with another version in the meantime.
  */
  predicate Breaks(s: State, a: Action, h: History, runtime: RuntimeKind)
    requires Enabled(s, a)
  {
    match a
    case Build(p) =>
      var pc := s.procs[p];
      && RecordNames(s, runtime, DefaultImage(pc.runtime, pc.contextHash))
      && s.world.Record(runtime).state.installedVersion != pc.version
    case WriteBuilt(p, _, outcome) => s.procs[p].runtime == runtime && outcome == Written && p in h.overtaken
    case WriteRefresh(p, _, outcome) => s.procs[p].runtime == runtime && outcome == Written && p in h.overtaken
    case _ => false
  }

  lemma StepBreaksIff(run: seq<Action>, a: Action, runtime: RuntimeKind)
    requires Exec(run).Some? && Enabled(Exec(run).value, a)
    requires RecordAgrees(Exec(run).value.world, runtime)
    ensures RecordAgrees(Apply(Exec(run).value, a).world, runtime) <==>
              !Breaks(Exec(run).value, a, HistoryOf(run), runtime)
  {
    HistoryIsExact(run);
    hide Exec, HistoryOf;
    ExactRecords(Exec(run).value, a, HistoryOf(run), runtime);
    hide IsExact, RecordAgrees, DefaultImage;
    assert runtime !in HistoryOf(run).stale by {
      RecordAgreesIffNotStale(run, runtime);
    }
  }

  // ---------------------------------------------------------------- commands that stay apart

  predicate IsPendingOn(s: State, p: Pid, runtime: RuntimeKind) {
    p in s.procs && IsPending(s.procs[p]) && s.procs[p].runtime == runtime
  }

  /** No two commands on the runtime are between their build, or their read for a refresh, and their write. */
  ghost predicate Apart(s: State, runtime: RuntimeKind) {
    forall p, q :: IsPendingOn(s, p, runtime) && IsPendingOn(s, q, runtime) ==> p == q
  }

  /** The step ends a build without its write: the command dies in between, or the write leaves the old file. */
  predicate LosesWrite(s: State, a: Action, runtime: RuntimeKind) {
    match a
    case End(p) => p in s.procs && s.procs[p].Built? && s.procs[p].runtime == runtime
    case WriteBuilt(p, _, outcome) => p in s.procs && s.procs[p].runtime == runtime && outcome == KeptOld
    case _ => false
  }

  ghost predicate ApartAt(run: seq<Action>, k: nat, runtime: RuntimeKind)
    requires k <= |run|
  {
    match Exec(run[..k]) case Some(s) => Apart(s, runtime) case None => true
  }

  predicate LosesWriteAt(run: seq<Action>, k: nat, runtime: RuntimeKind)
    requires k < |run|
  {
    match Exec(run[..k]) case Some(s) => LosesWrite(s, run[k], runtime) case None => false
  }

  /** Every build of the runtime is followed by its write, and no other such command comes in between. */
  ghost predicate IsOrderly(run: seq<Action>, runtime: RuntimeKind) {
    && (forall k: nat :: k <= |run| ==> ApartAt(run, k, runtime))
    && (forall k: nat :: k < |run| ==> !LosesWriteAt(run, k, runtime))
  }

  predicate HasBuilt(s: State, runtime: RuntimeKind) {
    exists p :: p in s.procs && s.procs[p].Built? && s.procs[p].runtime == runtime
  }

  /** A command that waits to refresh still finds the record that it has read, unless a cleaning has removed it. */
  predicate KeepsRead(s: State, p: Pid)
    requires p in s.procs && s.procs[p].Refreshing?
  {
    var file := s.world.Record(s.procs[p].runtime);
    file == Stored(s.procs[p].read) || file == Missing
  }

  ghost predicate AllOwn(s: State) {
    && (forall runtime :: RecordIsOwn(s.world, runtime))
    && (forall p :: p in s.procs && s.procs[p].Refreshing? ==>
          ReferencePrefix(s.procs[p].runtime) <= s.procs[p].read.image)
  }

  ghost predicate Tidy(s: State, runtime: RuntimeKind) {
    && (forall p :: IsPendingOn(s, p, runtime) ==> !IsOutdated(s, p))
    && (forall p :: IsPendingOn(s, p, runtime) && s.procs[p].Refreshing? ==> KeepsRead(s, p))
    && (HasBuilt(s, runtime) || RecordAgrees(s.world, runtime))
  }

  lemma DefaultImageIsOwn(runtime: RuntimeKind, contextHash: string)
    ensures ReferencePrefix(runtime) <= DefaultImage(runtime, contextHash)
  {
  }

  lemma OwnStep(s: State, a: Action)
    requires AllOwn(s) && Enabled(s, a)
    ensures AllOwn(Apply(s, a))
  {
    if a.WriteBuilt? {
      DefaultImageIsOwn(s.procs[a.p].runtime, s.procs[a.p].contextHash);
    }
    hide DefaultImage, ReferencePrefix;
    var t := Apply(s, a);
    forall runtime ensures RecordIsOwn(t.world, runtime) {
      assert RecordIsOwn(s.world, runtime);
    }
    forall p | p in t.procs && t.procs[p].Refreshing?
      ensures ReferencePrefix(t.procs[p].runtime) <= t.procs[p].read.image
    {
      assert RecordIsOwn(s.world, t.procs[p].runtime);
    }
  }

  /** A build for one runtime touches neither the record nor the pending writes of the other. */
  lemma BuildOfOther(s: State, p: Pid, runtime: RuntimeKind)
    requires AllOwn(s) && Enabled(s, Build(p)) && s.procs[p].runtime != runtime
    ensures !RecordNames(s, runtime, DefaultImage(s.procs[p].runtime, s.procs[p].contextHash))
    ensures forall q :: IsPendingOn(s, q, runtime) ==>
              PendingImage(s.procs[q]) != DefaultImage(s.procs[p].runtime, s.procs[p].contextHash)
  {
    var image := DefaultImage(s.procs[p].runtime, s.procs[p].contextHash);
    DefaultImageIsOwn(s.procs[p].runtime, s.procs[p].contextHash);
    if RecordNames(s, runtime, image) {
      assert RecordIsOwn(s.world, runtime);
      ReferencesAreDisjoint(s.procs[p].runtime, runtime, image);
    }
    forall q | IsPendingOn(s, q, runtime) ensures PendingImage(s.procs[q]) != image {
      if s.procs[q].Built? {
        DefaultImageIsOwn(runtime, s.procs[q].contextHash);
      }
      if PendingImage(s.procs[q]) == image {
        ReferencesAreDisjoint(s.procs[p].runtime, runtime, image);
      }
    }
  }

  /** The step keeps the pending commands of the runtime up to date. */
  lemma PendingStep(s: State, a: Action, runtime: RuntimeKind, p: Pid)
    requires AllOwn(s) && Tidy(s, runtime) && Apart(s, runtime) && Enabled(s, a)
    requires Apart(Apply(s, a), runtime) && IsPendingOn(Apply(s, a), p, runtime)
    ensures !IsOutdated(Apply(s, a), p)
    ensures Apply(s, a).procs[p].Refreshing? ==> KeepsRead(Apply(s, a), p)
  {
    var t := Apply(s, a);
    if a == Build(p) {
    } else if IsPendingOn(s, p, runtime) {
      assert t.procs[p] == s.procs[p];
      if a.Build? {
        if s.procs[a.p].runtime == runtime {
          assert IsPendingOn(t, a.p, runtime);
        } else {
          BuildOfOther(s, a.p, runtime);
        }
      } else if (a.WriteBuilt? || a.WriteRefresh?) && s.procs[a.p].runtime == runtime {
        assert IsPendingOn(s, a.p, runtime);
      }
    } else {
      assert a == ReadForUpdate(p);
      if q :| q in s.procs && s.procs[q].Built? && s.procs[q].runtime == runtime {
        assert IsPendingOn(t, q, runtime);
      }
    }
  }

  /** The step keeps the record in agreement, except while a build waits for its write. */
  lemma RecordStep(s: State, a: Action, runtime: RuntimeKind)
    requires AllOwn(s) && Tidy(s, runtime) && Apart(s, runtime) && Enabled(s, a) && !LosesWrite(s, a, runtime)
    ensures HasBuilt(Apply(s, a), runtime) || RecordAgrees(Apply(s, a).world, runtime)
  {
    var t := Apply(s, a);
    if q :| q in s.procs && s.procs[q].Built? && s.procs[q].runtime == runtime {
      assert IsPendingOn(s, q, runtime);
      assert (a.WriteBuilt? && a.p == q) || (q in t.procs && t.procs[q] == s.procs[q]);
    } else if a.Build? {
      if s.procs[a.p].runtime == runtime {
        assert t.procs[a.p].Built? && t.procs[a.p].runtime == runtime;
      } else {
        BuildOfOther(s, a.p, runtime);
      }
    } else if a.WriteRefresh? && s.procs[a.p].runtime == runtime {
      assert IsPendingOn(s, a.p, runtime);
    }
    hide DefaultImage, ReferencePrefix;
  }

  lemma TidyStep(s: State, a: Action, runtime: RuntimeKind)
    requires AllOwn(s) && Tidy(s, runtime) && Apart(s, runtime) && Enabled(s, a)
    requires Apart(Apply(s, a), runtime) && !LosesWrite(s, a, runtime)
    ensures Tidy(Apply(s, a), runtime)
  {
    RecordStep(s, a, runtime);
    forall p | IsPendingOn(Apply(s, a), p, runtime)
      ensures !IsOutdated(Apply(s, a), p) && (Apply(s, a).procs[p].Refreshing? ==> KeepsRead(Apply(s, a), p))
    {
      PendingStep(s, a, runtime, p);
    }
    hide Apply, HasBuilt, IsOutdated, RecordAgrees, Apart, AllOwn;
  }

  lemma {:induction false} OrderlyRunIsTidy(run: seq<Action>, runtime: RuntimeKind)
    requires Exec(run).Some? && IsOrderly(run, runtime)
    ensures AllOwn(Exec(run).value) && Tidy(Exec(run).value, runtime) && Apart(Exec(run).value, runtime)
  {
    assert run[..|run|] == run;
    assert ApartAt(run, |run|, runtime);
    if run != [] {
      var n := |run| - 1;
      var before := run[..n];
      forall k: nat | k <= n ensures ApartAt(before, k, runtime) {
        assert before[..k] == run[..k] && ApartAt(run, k, runtime);
      }
      forall k: nat | k < n ensures !LosesWriteAt(before, k, runtime) {
        assert before[..k] == run[..k] && !LosesWriteAt(run, k, runtime);
      }
      OrderlyRunIsTidy(before, runtime);
      assert !LosesWriteAt(run, n, runtime);
      OwnStep(Exec(before).value, run[n]);
      TidyStep(Exec(before).value, run[n], runtime);
    }
  }

  /**
    Agreement over every interleaving: if each successful build of the runtime is followed by its write
    and no two commands on it overlap between build or read and write, then the record tells the version
    in the image whenever no build waits for its write.
  */
  lemma OrderlyRunAgrees(run: seq<Action>, runtime: RuntimeKind)
    requires Exec(run).Some? && IsOrderly(run, runtime) && !HasBuilt(Exec(run).value, runtime)
    ensures RecordAgrees(Exec(run).value.world, runtime)
  {
    OrderlyRunIsTidy(run, runtime);
  }

  /** In such a run a refresh changes no image, and of the record only what was seen last and when. */
  lemma RefreshKeepsBuild(run: seq<Action>, p: Pid, now: nat, outcome: WriteOutcome)
    requires Exec(run).Some? && Enabled(Exec(run).value, WriteRefresh(p, now, outcome))
    requires IsOrderly(run, Exec(run).value.procs[p].runtime)
    ensures var s, t := Exec(run).value, Apply(Exec(run).value, WriteRefresh(p, now, outcome));
            var before, after := s.world.Record(s.procs[p].runtime), t.world.Record(s.procs[p].runtime);
            && t.world.images == s.world.images
            && (outcome == Written && before.Stored? ==>
                && after.Stored? && after.state.image == before.state.image
                && after.state.imageContextHash == before.state.imageContextHash
                && after.state.installedVersion == before.state.installedVersion
                && after.state.imageBuiltAt == before.state.imageBuiltAt)
            && (outcome == Written && !before.Stored? ==> before == Missing)
  {
    OrderlyRunIsTidy(run, Exec(run).value.procs[p].runtime);
    assert IsPendingOn(Exec(run).value, p, Exec(run).value.procs[p].runtime);
    hide Exec, IsOrderly;
  }

  lemma ExtendOrderly(before: seq<Action>, s: State, a: Action, t: State, runtime: RuntimeKind)
    returns (run: seq<Action>)
    requires Exec(before) == Some(s) && Enabled(s, a) && Apply(s, a) == t
    requires IsOrderly(before, runtime) && Apart(t, runtime) && !LosesWrite(s, a, runtime)
    ensures run == before + [a] && Exec(run) == Some(t) && IsOrderly(run, runtime)
  {
    run := before + [a];
    var n := |before|;
    assert run[..n] == before && run[..n + 1] == run;
    assert Exec(run) == Some(t);
    hide Exec, Apart, LosesWrite;
    forall k: nat | k <= n + 1 ensures ApartAt(run, k, runtime) {
      if k <= n {
        assert run[..k] == before[..k] && ApartAt(before, k, runtime);
      }
    }
    forall k: nat | k < n + 1 ensures !LosesWriteAt(run, k, runtime) {
      if k < n {
        assert run[..k] == before[..k] && !LosesWriteAt(before, k, runtime);
      }
    }
  }

  /** An update that finds the image current, after the build of it. */
  lemma OrderlyRefresh(contextHash: string) returns (run: seq<Action>)
    ensures IsOrderly(run, Codex)
    ensures Exec(run) ==
            Some(State(World(map[DefaultImage(Codex, contextHash) := "1"], Missing,
                             Stored(WithLatestCheck(NewState(Codex, contextHash, "1", 10, 10), "1", 30))), map[]))
  {
    var image, first := DefaultImage(Codex, contextHash), NewState(Codex, contextHash, "1", 10, 10);
    run := OrderlyBuild(contextHash);
    hide Exec, DefaultImage, IsOrderly;
    var w := World(map[image := "1"], Missing, Stored(first));
    var s1 := State(w, map[0 := SawImage(Codex, contextHash, "1", true)]);
    run := ExtendOrderly(run, State(w, map[]), BeginUpdate(0, Codex, contextHash, "1"), s1, Codex);
    var s2 := State(w, map[0 := Refreshing(Codex, first, "1")]);
    run := ExtendOrderly(run, s1, ReadForUpdate(0), s2, Codex);
    var s3 := State(w.(codex := Stored(WithLatestCheck(first, "1", 30))), map[]);
    run := ExtendOrderly(run, s2, WriteRefresh(0, 30, Written), s3, Codex);
  }

  /** Commands that follow one another are orderly, and so is a deletion behind their backs. */
  lemma OneAfterTheOther(contextHash: string) returns (run: seq<Action>)
    ensures IsOrderly(run, Codex)
    ensures Exec(run) ==
            Some(State(World(map[], Missing,
                             Stored(WithLatestCheck(NewState(Codex, contextHash, "1", 10, 10), "1", 30))), map[]))
  {
    var image := DefaultImage(Codex, contextHash);
    var record := Stored(WithLatestCheck(NewState(Codex, contextHash, "1", 10, 10), "1", 30));
    run := OrderlyRefresh(contextHash);
    hide Exec, DefaultImage, IsOrderly, WithLatestCheck, NewState;
    var s := State(World(map[image := "1"], Missing, record), map[]);
    run := ExtendOrderly(run, s, DeleteOutside(image), State(World(map[], Missing, record), map[]), Codex);
  }

  lemma OrderlyBuild(contextHash: string) returns (run: seq<Action>)
    ensures IsOrderly(run, Codex)
    ensures var image, first := DefaultImage(Codex, contextHash), NewState(Codex, contextHash, "1", 10, 10);
            Exec(run) == Some(State(World(map[image := "1"], Missing, Stored(first)), map[]))
  {
    var image := DefaultImage(Codex, contextHash);
    assert Exec([]) == Some(INITIAL) && IsOrderly([], Codex);
    hide Exec, DefaultImage, IsOrderly;
    var s1 := State(INITIAL.world, map[9 := ToBuild(Codex, contextHash, "1")]);
    run := ExtendOrderly([], INITIAL, BeginEnsure(9, Codex, contextHash, "1"), s1, Codex);
    var s2 := State(World(map[image := "1"], Missing, Missing), map[9 := Built(Codex, contextHash, "1")]);
    run := ExtendOrderly(run, s1, Build(9), s2, Codex);
    var record := Stored(NewState(Codex, contextHash, "1", 10, 10));
    run := ExtendOrderly(run, s2, WriteBuilt(9, 10, Written),
                         State(World(map[image := "1"], Missing, record), map[]), Codex);
  }

  // ---------------------------------------------------------------- what goes wrong otherwise

  /** No command dies, and every write that is tried lands. */
  predicate NothingFails(run: seq<Action>) {
    forall a :: a in run ==> Works(a)
  }

  predicate Works(a: Action) {
    match a
    case End(_) => false
    case WriteBuilt(_, _, outcome) => outcome == Written
    case WriteRefresh(_, _, outcome) => outcome == Written
    case _ => true
  }

  lemma ExtendRun(before: seq<Action>, s: State, a: Action, t: State) returns (run: seq<Action>)
    requires Exec(before) == Some(s) && Enabled(s, a) && Apply(s, a) == t
    ensures run == before + [a] && Exec(run) == Some(t)
    ensures NothingFails(before) && Works(a) ==> NothingFails(run)
  {
    run := before + [a];
    assert run[..|before|] == before;
  }

  /** A launch of the other runtime or root may build first: one build, recorded. */
  lemma OneBuild(contextHash: string) returns (run: seq<Action>)
    ensures var image, first := DefaultImage(Codex, contextHash), NewState(Codex, contextHash, "1", 10, 10);
            Exec(run) == Some(State(World(map[image := "1"], Missing, Stored(first)), map[]))
    ensures NothingFails(run)
  {
    var image := DefaultImage(Codex, contextHash);
    assert Exec([]) == Some(INITIAL) && NothingFails([]);
    hide Exec, DefaultImage, NothingFails;
    var s1 := State(INITIAL.world, map[9 := ToBuild(Codex, contextHash, "1")]);
    run := ExtendRun([], INITIAL, BeginEnsure(9, Codex, contextHash, "1"), s1);
    var s2 := State(World(map[image := "1"], Missing, Missing), map[9 := Built(Codex, contextHash, "1")]);
    run := ExtendRun(run, s1, Build(9), s2);
    var record := Stored(NewState(Codex, contextHash, "1", 10, 10));
    run := ExtendRun(run, s2, WriteBuilt(9, 10, Written), State(World(map[image := "1"], Missing, record), map[]));
  }

  /** Two launches of different roots both find the image missing. */
  lemma TwoAboutToBuild(contextHash: string) returns (run: seq<Action>)
    ensures Exec(run) == Some(State(INITIAL.world,
                                    map[0 := ToBuild(Codex, contextHash, "1"), 1 := ToBuild(Codex, contextHash, "2")]))
    ensures NothingFails(run)
  {
    assert Exec([]) == Some(INITIAL) && NothingFails([]);
    hide Exec, DefaultImage, NothingFails;
    var s1 := State(INITIAL.world, map[0 := ToBuild(Codex, contextHash, "1")]);
    run := ExtendRun([], INITIAL, BeginEnsure(0, Codex, contextHash, "1"), s1);
    var s2 := State(INITIAL.world, map[0 := ToBuild(Codex, contextHash, "1"), 1 := ToBuild(Codex, contextHash, "2")]);
    run := ExtendRun(run, s1, BeginEnsure(1, Codex, contextHash, "2"), s2);
  }

  lemma TwoBuilds(contextHash: string) returns (run: seq<Action>)
    ensures Exec(run) == Some(State(World(map[DefaultImage(Codex, contextHash) := "2"], Missing, Missing),
                                    map[0 := Built(Codex, contextHash, "1"), 1 := Built(Codex, contextHash, "2")]))
    ensures NothingFails(run)
  {
    var image := DefaultImage(Codex, contextHash);
    run := TwoAboutToBuild(contextHash);
    hide Exec, DefaultImage, NothingFails;
    var s2 := State(INITIAL.world, map[0 := ToBuild(Codex, contextHash, "1"), 1 := ToBuild(Codex, contextHash, "2")]);
    var s3 := State(World(map[image := "1"], Missing, Missing),
                    map[0 := Built(Codex, contextHash, "1"), 1 := ToBuild(Codex, contextHash, "2")]);
    run := ExtendRun(run, s2, Build(0), s3);
    var s4 := State(World(map[image := "2"], Missing, Missing),
                    map[0 := Built(Codex, contextHash, "1"), 1 := Built(Codex, contextHash, "2")]);
    run := ExtendRun(run, s3, Build(1), s4);
  }

  /** The world after such runs: the image has "2", and the record says "1". */
  predicate Misleads(world: World, contextHash: string, answers: Answers) {
    && DefaultImage(Codex, contextHash) in world.images
    && world.images[DefaultImage(Codex, contextHash)] == "2"
    && Ensure(world, Codex, contextHash, answers) == (world, Ok(Some("1")))
    && !RecordAgrees(world, Codex)
  }

  lemma OldRecordMisleads(contextHash: string, record: ImageState, answers: Answers)
    requires answers.existsWorks && answers.readWorks
    requires record.image == DefaultImage(Codex, contextHash) && record.installedVersion == "1"
    ensures Misleads(World(map[DefaultImage(Codex, contextHash) := "2"], Missing, Stored(record)), contextHash, answers)
  {
    hide DefaultImage;
  }

  /**
    Two launches of different roots build the same image, and the earlier build is recorded last. Every
    build has its own successful write; the next launch is told "1", the image has "2".
  */
  lemma OverlappingBuildsMislead(contextHash: string, answers: Answers) returns (run: seq<Action>)
    requires answers.existsWorks && answers.readWorks
    ensures Exec(run).Some? && NothingFails(run) && Exec(run).value.procs == map[]
    ensures Misleads(Exec(run).value.world, contextHash, answers)
  {
    var image := DefaultImage(Codex, contextHash);
    run := TwoBuilds(contextHash);
    hide Exec, DefaultImage, NothingFails, Misleads;
    var w := World(map[image := "2"], Missing, Missing);
    var s4 := State(w, map[0 := Built(Codex, contextHash, "1"), 1 := Built(Codex, contextHash, "2")]);
    var s5 := State(w.(codex := Stored(NewState(Codex, contextHash, "2", 20, 20))),
                    map[0 := Built(Codex, contextHash, "1")]);
    run := ExtendRun(run, s4, WriteBuilt(1, 20, Written), s5);
    var s6 := State(w.(codex := Stored(NewState(Codex, contextHash, "1", 10, 10))), map[]);
    run := ExtendRun(run, s5, WriteBuilt(0, 10, Written), s6);
    OldRecordMisleads(contextHash, s6.world.codex.state, answers);
  }

  /** One update is about to refresh the record that it has read, another one to build. */
  lemma RefreshBesideBuild(contextHash: string) returns (run: seq<Action>)
    ensures var first := NewState(Codex, contextHash, "1", 10, 10);
            Exec(run) == Some(State(World(map[DefaultImage(Codex, contextHash) := "1"], Missing, Stored(first)),
                                    map[0 := Refreshing(Codex, first, "1"), 1 := ToBuild(Codex, contextHash, "2")]))
    ensures NothingFails(run)
  {
    var image := DefaultImage(Codex, contextHash);
    run := OneBuild(contextHash);
    hide Exec, DefaultImage, NothingFails;
    var first := NewState(Codex, contextHash, "1", 10, 10);
    var w := World(map[image := "1"], Missing, Stored(first));
    var s0 := State(w, map[]);
    var s1 := State(w, map[0 := SawImage(Codex, contextHash, "1", true)]);
    run := ExtendRun(run, s0, BeginUpdate(0, Codex, contextHash, "1"), s1);
    var s2 := State(w, map[0 := Refreshing(Codex, first, "1")]);
    run := ExtendRun(run, s1, ReadForUpdate(0), s2);
    var s3 := State(w, map[0 := Refreshing(Codex, first, "1"), 1 := SawImage(Codex, contextHash, "2", true)]);
    run := ExtendRun(run, s2, BeginUpdate(1, Codex, contextHash, "2"), s3);
    var s4 := State(w, map[0 := Refreshing(Codex, first, "1"), 1 := ToBuild(Codex, contextHash, "2")]);
    run := ExtendRun(run, s3, ReadForUpdate(1), s4);
  }

  /**
    An update that refreshes writes back the record it has read, over that of a build in between. The
    only build since was recorded at once, and yet the record names the version before it.
  */
  lemma OverlappingRefreshMisleads(contextHash: string, answers: Answers) returns (run: seq<Action>)
    requires answers.existsWorks && answers.readWorks
    ensures Exec(run).Some? && NothingFails(run) && Exec(run).value.procs == map[]
    ensures Misleads(Exec(run).value.world, contextHash, answers)
  {
    var image := DefaultImage(Codex, contextHash);
    run := RefreshBesideBuild(contextHash);
    hide Exec, DefaultImage, NothingFails, Misleads;
    var first := NewState(Codex, contextHash, "1", 10, 10);
    var s4 := State(World(map[image := "1"], Missing, Stored(first)),
                    map[0 := Refreshing(Codex, first, "1"), 1 := ToBuild(Codex, contextHash, "2")]);
    var w := World(map[image := "2"], Missing, Stored(first));
    var s5 := State(w, map[0 := Refreshing(Codex, first, "1"), 1 := Built(Codex, contextHash, "2")]);
    run := ExtendRun(run, s4, Build(1), s5);
    var s6 := State(w.(codex := Stored(NewState(Codex, contextHash, "2", 20, 20))),
                    map[0 := Refreshing(Codex, first, "1")]);
    run := ExtendRun(run, s5, WriteBuilt(1, 20, Written), s6);
    var s7 := State(w.(codex := Stored(WithLatestCheck(first, "1", 30))), map[]);
    run := ExtendRun(run, s6, WriteRefresh(0, 30, Written), s7);
    OldRecordMisleads(contextHash, s7.world.codex.state, answers);
  }

  /** A single command suffices if its write is lost. */
  lemma UnrecordedBuildMisleads(contextHash: string, answers: Answers) returns (run: seq<Action>)
    requires answers.existsWorks && answers.readWorks
    ensures Exec(run).Some? && Exec(run).value.procs == map[]
    ensures Misleads(Exec(run).value.world, contextHash, answers)
  {
    var image := DefaultImage(Codex, contextHash);
    run := OneBuild(contextHash);
    hide Exec, DefaultImage, Misleads;
    var first := NewState(Codex, contextHash, "1", 10, 10);
    var w := World(map[image := "1"], Missing, Stored(first));
    var s1 := State(w, map[0 := SawImage(Codex, contextHash, "2", true)]);
    run := ExtendRun(run, State(w, map[]), BeginUpdate(0, Codex, contextHash, "2"), s1);
    var s2 := State(w, map[0 := ToBuild(Codex, contextHash, "2")]);
    run := ExtendRun(run, s1, ReadForUpdate(0), s2);
    var s3 := State(World(map[image := "2"], Missing, Stored(first)), map[0 := Built(Codex, contextHash, "2")]);
    run := ExtendRun(run, s2, Build(0), s3);
    run := ExtendRun(run, s3, WriteBuilt(0, 20, KeptOld), State(s3.world, map[]));
    OldRecordMisleads(contextHash, first, answers);
  }
}
