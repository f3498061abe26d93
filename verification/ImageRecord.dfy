/**
  The default runtime images and the record kept of each: the state file, the plan of an update, and
  what updating, building on demand and cleaning do when no other command runs at the same time. A
  command may fail between any two of its effects; what the host answers is a parameter. How commands
  interleave is the subject of `ImageProtocol`.
*/
module ImageRecord {
  import opened Wrappers
  import opened Runtimes
  import opened ImageContext

  datatype ImageState = ImageState(
    image: string,
    imageContextHash: string,
    installedVersion: string,
    latestSeenVersion: string,
    latestCheckedAt: nat,
    imageBuiltAt: nat)

  /** The state file of one runtime. */
  datatype StateFile = Missing | Corrupt | Stored(state: ImageState)

  /** The version last built into each image that exists, and the state files. */
  datatype World = World(images: map<string, string>, opencode: StateFile, codex: StateFile)
  {
    function Record(runtime: RuntimeKind): StateFile {
      match runtime case Opencode => opencode case Codex => codex
    }

    function WithRecord(runtime: RuntimeKind, file: StateFile): World {
      match runtime case Opencode => this.(opencode := file) case Codex => this.(codex := file)
    }
  }

  /** A failing write leaves the old file, or a truncated one. */
  datatype WriteOutcome = Written | KeptOld | Truncated

  /** What the host answers during one command; each operation is asked for at most once. */
  datatype Answers = Answers(
    latestVersion: Option<string>,
    existsWorks: bool,
    readWorks: bool,
    buildWorks: bool,
    now: Option<nat>,
    write: WriteOutcome,
    removeImageWorks: bool,
    removeRecordWorks: bool)

  datatype UpdateOutcome = AlreadyUpToDate(image: string, version: string) | Rebuilt(image: string, version: string)

  datatype CommandError = CommandFailed

  // ---------------------------------------------------------------- state and plan

  /** `RuntimeImageState::new` */
  function NewState(runtime: RuntimeKind, contextHash: string, version: string, checkedAt: nat, builtAt: nat)
    : ImageState
  {
    ImageState(DefaultImage(runtime, contextHash), contextHash, version, version, checkedAt, builtAt)
  }

  /** `with_latest_check` */
  function WithLatestCheck(state: ImageState, version: string, checkedAt: nat): ImageState {
    state.(latestSeenVersion := version, latestCheckedAt := checkedAt)
  }

  datatype UpdatePlan = RefreshState(state: ImageState) | Rebuild

  /** `plan_runtime_image_update` */
  function PlanUpdate(runtime: RuntimeKind, contextHash: string, latest: string, imageExists: bool,
                      prior: Option<ImageState>): UpdatePlan
  {
    match prior
    case None => Rebuild
    case Some(state) =>
      if && imageExists && state.installedVersion == latest && state.image == DefaultImage(runtime, contextHash)
         && state.imageContextHash == contextHash
      then RefreshState(state) else Rebuild
  }

  // ---------------------------------------------------------------- undisturbed commands

  function ReadRecord(world: World, runtime: RuntimeKind, answers: Answers): Result<Option<ImageState>, CommandError> {
    if !answers.readWorks then Err(CommandFailed)
    else match world.Record(runtime)
      case Missing => Ok(None)
      case Corrupt => Err(CommandFailed)
      case Stored(state) => Ok(Some(state))
  }

  function WriteRecord(world: World, runtime: RuntimeKind, state: ImageState, answers: Answers): World {
    match answers.write
    case Written => world.WithRecord(runtime, Stored(state))
    case KeptOld => world
    case Truncated => world.WithRecord(runtime, Corrupt)
  }

  function BuildStep(world: World, runtime: RuntimeKind, contextHash: string, version: string, answers: Answers)
    : World
  {
    if !answers.buildWorks then world
    else
      var built := world.(images := world.images[DefaultImage(runtime, contextHash) := version]);
      match answers.now
      case None => built
      case Some(now) => WriteRecord(built, runtime, NewState(runtime, contextHash, version, now, now), answers)
  }

  predicate BuildSucceeds(answers: Answers) {
    answers.buildWorks && answers.now.Some? && answers.write == Written
  }

  /** An update that has seen whether the image exists: its effects and its result. */
  function UpdateFromRead(world: World, runtime: RuntimeKind, contextHash: string, latest: string, imageExists: bool,
                          answers: Answers): (World, Result<UpdateOutcome, CommandError>)
  {
    var image := DefaultImage(runtime, contextHash);
    match ReadRecord(world, runtime, answers)
    case Err(error) => (world, Err(error))
    case Ok(prior) =>
      match PlanUpdate(runtime, contextHash, latest, imageExists, prior)
      case RefreshState(state) =>
        if answers.now.None? then (world, Err(CommandFailed))
        else (WriteRecord(world, runtime, WithLatestCheck(state, latest, answers.now.value), answers),
              if answers.write == Written then Ok(AlreadyUpToDate(image, latest)) else Err(CommandFailed))
      case Rebuild =>
        (BuildStep(world, runtime, contextHash, latest, answers),
         if BuildSucceeds(answers) then Ok(Rebuilt(image, latest)) else Err(CommandFailed))
  }

  /** `update_default_runtime_image_with`: what it leaves behind, and its result. */
  function Update(world: World, runtime: RuntimeKind, contextHash: string, answers: Answers)
    : (World, Result<UpdateOutcome, CommandError>)
  {
    if answers.latestVersion.None? || !answers.existsWorks then (world, Err(CommandFailed))
    else UpdateFromRead(world, runtime, contextHash, answers.latestVersion.value,
                        DefaultImage(runtime, contextHash) in world.images, answers)
  }

  /** `ensure_default_runtime_image_with`: the version is that of the record when the image is there. */
  function Ensure(world: World, runtime: RuntimeKind, contextHash: string, answers: Answers)
    : (World, Result<Option<string>, CommandError>)
  {
    var image := DefaultImage(runtime, contextHash);
    if !answers.existsWorks then (world, Err(CommandFailed))
    else if image in world.images then
      (world, match ReadRecord(world, runtime, answers)
              case Err(error) => Err(error)
              case Ok(None) => Ok(None)
              case Ok(Some(state)) => Ok(if state.image == image then Some(state.installedVersion) else None))
    else if answers.latestVersion.None? then (world, Err(CommandFailed))
    else
      (BuildStep(world, runtime, contextHash, answers.latestVersion.value, answers),
       if BuildSucceeds(answers) then Ok(answers.latestVersion) else Err(CommandFailed))
  }

  /** Removal of an image by `clean`, and of its record if it is the one recorded. */
  function Clean(world: World, runtime: RuntimeKind, image: string, answers: Answers): (World, bool) {
    if !answers.removeImageWorks then (world, false)
    else
      var removed := world.(images := world.images - {image});
      match ReadRecord(removed, runtime, answers)
      case Err(_) => (removed, false)
      case Ok(prior) =>
        if prior.None? || prior.value.image != image then (removed, true)
        else if answers.removeRecordWorks then (removed.WithRecord(runtime, Missing), true)
        else (removed, false)
  }

  // ---------------------------------------------------------------- the record agrees with the images

  /** If the recorded image exists, the recorded version is the one last built into it. */
  predicate RecordAgrees(world: World, runtime: RuntimeKind) {
    match world.Record(runtime)
    case Stored(state) => state.image in world.images ==> world.images[state.image] == state.installedVersion
    case _ => true
  }

  /** A record names an image of its own runtime. */
  predicate RecordIsOwn(world: World, runtime: RuntimeKind) {
    match world.Record(runtime)
    case Stored(state) => ReferencePrefix(runtime) <= state.image
    case _ => true
  }

  predicate Agrees(world: World) {
    forall runtime :: RecordAgrees(world, runtime) && RecordIsOwn(world, runtime)
  }

  // ---------------------------------------------------------------- exactly what the commands do

  /** The image exists, and the record is of this image, this context and this version. */
  predicate IsCurrent(world: World, runtime: RuntimeKind, contextHash: string, version: string) {
    var image := DefaultImage(runtime, contextHash);
    && image in world.images
    && world.Record(runtime).Stored?
    && var state := world.Record(runtime).state;
       state.image == image && state.imageContextHash == contextHash && state.installedVersion == version
  }

  /** What a write of this state leaves of the record. */
  predicate WriteLeaves(outcome: WriteOutcome, before: StateFile, state: ImageState, after: StateFile) {
    && (outcome == Written ==> after == Stored(state))
    && (outcome == KeptOld ==> after == before)
    && (outcome == Truncated ==> after == Corrupt)
  }

  /** The record of every other runtime is as it was. */
  predicate OthersUntouched(before: World, after: World, runtime: RuntimeKind) {
    forall other :: other != runtime ==> after.Record(other) == before.Record(other)
  }

  /**
    An undisturbed update succeeds exactly if the version, the record and the clock can be read, the
    write lands and, unless the image is current already, the build works. Then the record is that of
    the latest version, and so is the image. It builds nothing if the image is current.
  */
  lemma UpdateExactly(world: World, runtime: RuntimeKind, contextHash: string, answers: Answers)
    ensures var (after, r) := Update(world, runtime, contextHash, answers);
            var image := DefaultImage(runtime, contextHash);
            var readable := answers.latestVersion.Some? && answers.existsWorks && answers.readWorks
                            && !world.Record(runtime).Corrupt?;
            if !readable then after == world && r.Err?
            else
              var latest := answers.latestVersion.value;
              var current := IsCurrent(world, runtime, contextHash, latest);
              && (r.Ok? <==> (current || answers.buildWorks) && answers.now.Some? && answers.write == Written)
              && (r.Ok? ==> r.value == if current then AlreadyUpToDate(image, latest) else Rebuilt(image, latest))
              && after.images == (if current || !answers.buildWorks then world.images
                                  else world.images[image := latest])
              && OthersUntouched(world, after, runtime)
              && if answers.now.None? || (!current && !answers.buildWorks)
                 then after.Record(runtime) == world.Record(runtime)
                 else
                   var now := answers.now.value;
                   WriteLeaves(answers.write, world.Record(runtime),
                               if current then world.Record(runtime).state.(latestSeenVersion := latest,
                                                                            latestCheckedAt := now)
                               else ImageState(image, contextHash, latest, latest, now, now),
                               after.Record(runtime))
  {
    hide DefaultImage;
  }

  /**
    An undisturbed build on demand succeeds exactly if the image can be looked for and, if it exists, its
    record can be read; otherwise if the version and the clock can be read, the build works and the write
    lands. An image that exists is not touched, and its version is known exactly if the record names it.
  */
  lemma EnsureExactly(world: World, runtime: RuntimeKind, contextHash: string, answers: Answers)
    ensures var (after, r) := Ensure(world, runtime, contextHash, answers);
            var image := DefaultImage(runtime, contextHash);
            var record := world.Record(runtime);
            if !answers.existsWorks then after == world && r.Err?
            else if image in world.images then
              && after == world
              && (r.Ok? <==> answers.readWorks && !record.Corrupt?)
              && forall version :: r == Ok(Some(version)) <==>
                   r.Ok? && record.Stored? && record.state.image == image && record.state.installedVersion == version
            else if answers.latestVersion.None? then after == world && r.Err?
            else
              var latest := answers.latestVersion.value;
              && (r.Ok? <==> answers.buildWorks && answers.now.Some? && answers.write == Written)
              && (r.Ok? ==> r.value == Some(latest))
              && after.images == (if answers.buildWorks then world.images[image := latest] else world.images)
              && OthersUntouched(world, after, runtime)
              && if answers.now.None? || !answers.buildWorks then after.Record(runtime) == record
                 else WriteLeaves(answers.write, record,
                                  ImageState(image, contextHash, latest, latest, answers.now.value, answers.now.value),
                                  after.Record(runtime))
  {
    hide DefaultImage;
  }

  /** An undisturbed cleaning removes the image first, and the record only if it names that image. */
  lemma CleanExactly(world: World, runtime: RuntimeKind, image: string, answers: Answers)
    ensures var (after, ok) := Clean(world, runtime, image, answers);
            var record := world.Record(runtime);
            var names := record.Stored? && record.state.image == image;
            && (ok <==> answers.removeImageWorks && answers.readWorks && !record.Corrupt?
                        && (names ==> answers.removeRecordWorks))
            && after.images == (if answers.removeImageWorks then world.images - {image} else world.images)
            && after.Record(runtime) == (if ok && names then Missing else record)
            && OthersUntouched(world, after, runtime)
  {
  }

  /**
    After an update a launch is told its version and builds nothing, an update to the same version finds
    the image current, and a cleaning of the image takes the record along.
  */
  lemma UpdateIsSeenLater(world: World, runtime: RuntimeKind, contextHash: string, answers: Answers, later: Answers)
    requires Update(world, runtime, contextHash, answers).1.Ok?
    requires later.existsWorks && later.readWorks
    ensures var (after, r) := Update(world, runtime, contextHash, answers);
            var image := DefaultImage(runtime, contextHash);
            && Ensure(after, runtime, contextHash, later) == (after, Ok(Some(r.value.version)))
            && (later.latestVersion == answers.latestVersion && later.now.Some? && later.write == Written ==>
                  && Update(after, runtime, contextHash, later).1 == Ok(AlreadyUpToDate(image, r.value.version))
                  && Update(after, runtime, contextHash, later).0.images == after.images)
            && (later.removeImageWorks && later.removeRecordWorks ==>
                  && Clean(after, runtime, image, later).1
                  && Clean(after, runtime, image, later).0.images == after.images - {image}
                  && Clean(after, runtime, image, later).0.Record(runtime) == Missing)
  {
    var after := Update(world, runtime, contextHash, answers).0;
    UpdateExactly(world, runtime, contextHash, answers);
    EnsureExactly(after, runtime, contextHash, later);
    UpdateExactly(after, runtime, contextHash, later);
    CleanExactly(after, runtime, DefaultImage(runtime, contextHash), later);
    hide Update, Ensure, Clean, DefaultImage;
  }

  /** What `update` reports is true of the image, and an image reported as current was not touched. */
  lemma UpdateReportsTheImage(world: World, runtime: RuntimeKind, contextHash: string, answers: Answers)
    requires Agrees(world) && Update(world, runtime, contextHash, answers).1.Ok?
    ensures var (after, r) := Update(world, runtime, contextHash, answers);
            var image := DefaultImage(runtime, contextHash);
            && r.value.image == image && Some(r.value.version) == answers.latestVersion
            && image in after.images && after.images[image] == r.value.version
            && after.Record(runtime).Stored?
            && after.Record(runtime).state.image == image
            && after.Record(runtime).state.installedVersion == r.value.version
            && Some(after.Record(runtime).state.latestCheckedAt) == answers.now
            && (r.value.AlreadyUpToDate? ==> after.images == world.images)
  {
    assert RecordAgrees(world, runtime);
    hide DefaultImage;
  }

  /** The version that `ensure` hands on is the one in the image that the launch will use. */
  lemma EnsureReportsTheImage(world: World, runtime: RuntimeKind, contextHash: string, answers: Answers)
    requires Agrees(world) && Ensure(world, runtime, contextHash, answers).1.Ok?
    ensures var (after, r) := Ensure(world, runtime, contextHash, answers);
            var image := DefaultImage(runtime, contextHash);
            image in after.images && (r.value.Some? ==> after.images[image] == r.value.value)
  {
    assert RecordAgrees(world, runtime);
    hide DefaultImage;
  }
}
