/**
  The plan of `clean`: which images, volumes and lock files may be removed, which are left alone and
  why. Containers, images and volumes are what an inventory of Podman gave.
*/
module CleanPlan {
  import opened Wrappers
  import opened Runtimes
  import opened Sessions
  import opened ContainerNames
  import opened ImageContext
  import opened LaunchSpec

  datatype ResourceKind = ImageKind | VolumeKind | LockFileKind

  datatype CleanResource = CleanResource(kind: ResourceKind, name: string)

  datatype ContainerMount = ContainerMount(isVolume: bool, name: Option<string>, source: string)

  datatype CleanContainer = CleanContainer(id: string, imageName: string, mounts: seq<ContainerMount>)

  datatype DefaultImageCandidate = DefaultImageCandidate(runtime: RuntimeKind, image: string)

  datatype LockFileStatus = Available(path: string) | Locked(path: string)

  datatype CleanInventory = CleanInventory(
    containers: seq<CleanContainer>,
    defaultRuntimeImages: seq<DefaultImageCandidate>,
    volumes: seq<string>,
    lockFiles: seq<LockFileStatus>)

  datatype CleanCandidate =
    | DefaultRuntimeImage(runtime: RuntimeKind, resource: CleanResource)
    | CacheVolume(resource: CleanResource)
    | WorkspaceLockFile(path: string, resource: CleanResource)

  datatype SkipReason = UsedBy(containerId: string) | CurrentDefaultImage | LockedByProcess

  datatype SkippedResource = SkippedResource(resource: CleanResource, reason: SkipReason)

  // ---------------------------------------------------------------- which images may be cleaned at all

  /** An image with the references that Podman knows it by, sorted and without duplicates. */
  datatype PodmanImage = PodmanImage(references: seq<string>, labels: Labels)

  const LABEL_DEFAULT_RUNTIME_IMAGE := OtherLabel("io.agentbox.default_runtime_image")
  const LABEL_IMAGE_CONTEXT_HASH := OtherLabel("io.agentbox.image_context_hash")

  predicate EndsWith(s: string, suffix: string) {
    |s| >= |suffix| && s[|s| - |suffix|..] == suffix
  }

  /** `DefaultRuntimeImageMetadata::from_labels` */
  function ImageMetadata(labels: Labels): Option<(RuntimeKind, string)> {
    if Label(labels, LABEL_DEFAULT_RUNTIME_IMAGE) != Some("true") then None
    else match (Label(labels, LabelRuntime), Label(labels, LABEL_IMAGE_CONTEXT_HASH))
      case (Some(name), Some(hash)) =>
        if ParseRuntime(name).Some? && IsContextHash(hash) then Some((ParseRuntime(name).value, hash)) else None
      case _ => None
  }

  function MatchingReferences(references: seq<string>, runtime: RuntimeKind, contextHash: string)
    : (r: seq<DefaultImageCandidate>)
    ensures forall candidate :: candidate in r <==>
              && candidate.runtime == runtime && candidate.image in references
              && IsContentHashReference(runtime, candidate.image) && EndsWith(candidate.image, contextHash)
  {
    if references == [] then []
    else
      (if IsContentHashReference(runtime, references[0]) && EndsWith(references[0], contextHash)
       then [DefaultImageCandidate(runtime, references[0])] else [])
      + MatchingReferences(references[1..], runtime, contextHash)
  }

  /** A reference that matches is the default image of the labelled runtime and context hash, and no other. */
  lemma MatchingReferenceIsDefaultImage(runtime: RuntimeKind, contextHash: string, image: string)
    requires IsContextHash(contextHash)
    ensures IsContentHashReference(runtime, image) && EndsWith(image, contextHash) <==>
              image == DefaultImage(runtime, contextHash)
  {
    if IsContentHashReference(runtime, image) && EndsWith(image, contextHash) {
      var prefix := ReferencePrefix(runtime);
      assert image == prefix + image[|prefix|..];
      assert |image| - |contextHash| == |prefix|;
    }
    if image == DefaultImage(runtime, contextHash) {
      DefaultImageIsReference(runtime, contextHash);
    }
  }

  /** `labeled_default_runtime_image_candidates` of every image in turn. */
  function LabeledImageCandidates(images: seq<PodmanImage>): (r: seq<DefaultImageCandidate>)
    ensures forall i :: 0 <= i < |r| ==> IsContentHashReference(r[i].runtime, r[i].image)
  {
    if images == [] then []
    else
      (match ImageMetadata(images[0].labels)
       case None => []
       case Some((runtime, hash)) => MatchingReferences(images[0].references, runtime, hash))
      + LabeledImageCandidates(images[1..])
  }

  /** The candidate is a reference of a listed image that is labelled as the default image of just that name. */
  predicate IsLabeledReference(images: seq<PodmanImage>, candidate: DefaultImageCandidate) {
    exists i :: 0 <= i < |images| && IsReferenceOf(images[i], candidate)
  }

  predicate IsReferenceOf(image: PodmanImage, candidate: DefaultImageCandidate) {
    && Label(image.labels, LABEL_DEFAULT_RUNTIME_IMAGE) == Some("true")
    && Label(image.labels, LabelRuntime) == Some(RuntimeName(candidate.runtime))
    && Label(image.labels, LABEL_IMAGE_CONTEXT_HASH).Some?
    && var contextHash := Label(image.labels, LABEL_IMAGE_CONTEXT_HASH).value;
       && IsContextHash(contextHash) && candidate.image in image.references
       && candidate.image == DefaultImage(candidate.runtime, contextHash)
  }

  lemma CandidatesOfImage(image: PodmanImage, candidate: DefaultImageCandidate)
    ensures IsReferenceOf(image, candidate) <==>
              && ImageMetadata(image.labels).Some?
              && var (runtime, contextHash) := ImageMetadata(image.labels).value;
                 candidate in MatchingReferences(image.references, runtime, contextHash)
  {
    if ImageMetadata(image.labels).Some? {
      var (runtime, contextHash) := ImageMetadata(image.labels).value;
      MatchingReferenceIsDefaultImage(runtime, contextHash, candidate.image);
    }
  }

  /** Which images may be cleaned at all: exactly the labelled references of the listing. */
  lemma {:induction false} LabeledCandidatesIff(images: seq<PodmanImage>, candidate: DefaultImageCandidate)
    ensures candidate in LabeledImageCandidates(images) <==> IsLabeledReference(images, candidate)
  {
    if images != [] {
      var rest := images[1..];
      LabeledCandidatesIff(rest, candidate);
      CandidatesOfImage(images[0], candidate);
      hide IsReferenceOf, ImageMetadata, MatchingReferences;
      assert forall i :: 0 < i < |images| ==> images[i] == rest[i - 1];
      if i :| 0 <= i < |rest| && IsReferenceOf(rest[i], candidate) {
        assert IsReferenceOf(images[i + 1], candidate);
      }
    }
  }

  // ---------------------------------------------------------------- usage

  /** `named_volume_name`: the name of the volume, or its source if it has no name. */
  function NamedVolume(mount: ContainerMount): Option<string> {
    if !mount.isVolume then None
    else if mount.name.Some? && mount.name.value != "" then mount.name
    else if mount.source != "" then Some(mount.source)
    else None
  }

  /** The mount is of this volume: by its name or, if it has none, by its source. */
  predicate Mounts(mount: ContainerMount, volume: string) {
    && mount.isVolume && volume != ""
    && (mount.name == Some(volume) || ((mount.name == None || mount.name == Some("")) && mount.source == volume))
  }

  /** The container runs this image, or one of its first `k` mounts is this volume. */
  predicate UsesUpTo(container: CleanContainer, resource: CleanResource, k: nat)
    requires k <= |container.mounts|
  {
    || (resource.kind == ImageKind && resource.name == container.imageName)
    || (resource.kind == VolumeKind && exists j :: 0 <= j < k && Mounts(container.mounts[j], resource.name))
  }

  predicate Uses(container: CleanContainer, resource: CleanResource) {
    UsesUpTo(container, resource, |container.mounts|)
  }

  /** The first container that uses the resource. */
  function FirstUser(containers: seq<CleanContainer>, resource: CleanResource): (user: Option<nat>)
    ensures match user
            case None => forall i :: 0 <= i < |containers| ==> !Uses(containers[i], resource)
            case Some(i) => && i < |containers| && Uses(containers[i], resource)
                            && forall j :: 0 <= j < i ==> !Uses(containers[j], resource)
  {
    if containers == [] then None
    else
      var n := |containers| - 1;
      match FirstUser(containers[..n], resource)
      case Some(i) => Some(i)
      case None => if Uses(containers[n], resource) then Some(n) else None
  }

  function UserId(containers: seq<CleanContainer>, resource: CleanResource): Option<string> {
    match FirstUser(containers, resource) case None => None case Some(i) => Some(containers[i].id)
  }

  class ResourceUsage {
    var users: map<CleanResource, string>

    constructor ()
      ensures users == map[]
    {
      users := map[];
    }

    function User(resource: CleanResource): Option<string>
      reads this
    {
      if resource in users then Some(users[resource]) else None
    }

    /** The index answers as a scan over the containers would. */
    ghost predicate Indexes(containers: seq<CleanContainer>)
      reads this
    {
      forall resource :: User(resource) == UserId(containers, resource)
    }

    /** The index covers the containers before this one, and the first `k` mounts of this one. */
    ghost predicate IndexesUpTo(containers: seq<CleanContainer>, container: CleanContainer, k: nat)
      requires k <= |container.mounts|
      reads this
    {
      forall resource :: User(resource) ==
        if UserId(containers, resource).Some? then UserId(containers, resource)
        else if UsesUpTo(container, resource, k) then Some(container.id) else None
    }

    /** The entry that is already there stays. */
    method MarkUsed(resource: CleanResource, containerId: string)
      modifies this
      ensures users == if resource in old(users) then old(users) else old(users)[resource := containerId]
    {
      if resource !in users {
        users := users[resource := containerId];
      }
    }

    method MarkMounts(ghost containers: seq<CleanContainer>, container: CleanContainer)
      requires IndexesUpTo(containers, container, 0)
      modifies this
      ensures IndexesUpTo(containers, container, |container.mounts|)
    {
      hide FirstUser, UserId;
      for k := 0 to |container.mounts|
        invariant IndexesUpTo(containers, container, k)
      {
        var volume := NamedVolume(container.mounts[k]);
        if volume.Some? {
          MarkUsed(CleanResource(VolumeKind, volume.value), container.id);
        }
      }
    }
  }

  lemma FirstUserOfOneMore(containers: seq<CleanContainer>, container: CleanContainer, resource: CleanResource)
    ensures UserId(containers + [container], resource) ==
            if UserId(containers, resource).Some? then UserId(containers, resource)
            else if Uses(container, resource) then Some(container.id) else None
  {
    assert (containers + [container])[..|containers|] == containers;
  }

  /** `ResourceUsage::from_containers`: the index equals a first-match scan. */
  method UsageFromContainers(containers: seq<CleanContainer>) returns (usage: ResourceUsage)
    ensures fresh(usage) && usage.Indexes(containers)
  {
    hide UserId, UsesUpTo;
    usage := new ResourceUsage();
    assert forall resource :: UserId([], resource) == None by {
      NobodyUsesAnything();
    }
    for i := 0 to |containers|
      invariant fresh(usage) && usage.Indexes(containers[..i])
    {
      MarkImageOf(usage, containers[..i], containers[i]);
      usage.MarkMounts(containers[..i], containers[i]);
      assert containers[..i + 1] == containers[..i] + [containers[i]];
      forall resource ensures usage.User(resource) == UserId(containers[..i + 1], resource) {
        FirstUserOfOneMore(containers[..i], containers[i], resource);
      }
    }
    assert containers[..|containers|] == containers;
  }

  lemma NobodyUsesAnything()
    ensures forall resource :: UserId([], resource) == None
  {
  }

  method MarkImageOf(usage: ResourceUsage, ghost containers: seq<CleanContainer>, container: CleanContainer)
    requires usage.Indexes(containers)
    modifies usage
    ensures usage.IndexesUpTo(containers, container, 0)
  {
    hide FirstUser, UserId;
    usage.MarkUsed(CleanResource(ImageKind, container.imageName), container.id);
  }

  // ---------------------------------------------------------------- the plan

  datatype Verdict = Remove(candidate: CleanCandidate) | Keep(skipped: SkippedResource)
  {
    function Resource(): CleanResource {
      match this case Remove(candidate) => candidate.resource case Keep(skipped) => skipped.resource
    }
  }

  function ImageVerdict(image: DefaultImageCandidate, containers: seq<CleanContainer>, contextHash: string): Verdict {
    var resource := CleanResource(ImageKind, image.image);
    match UserId(containers, resource)
    case Some(id) => Keep(SkippedResource(resource, UsedBy(id)))
    case None =>
      if image.image == DefaultImage(image.runtime, contextHash)
      then Keep(SkippedResource(resource, CurrentDefaultImage))
      else Remove(DefaultRuntimeImage(image.runtime, resource))
  }

  function VolumeVerdict(volume: string, containers: seq<CleanContainer>): Verdict {
    var resource := CleanResource(VolumeKind, volume);
    match UserId(containers, resource)
    case Some(id) => Keep(SkippedResource(resource, UsedBy(id)))
    case None => Remove(CacheVolume(resource))
  }

  function LockFileVerdict(file: LockFileStatus): Verdict {
    var resource := CleanResource(LockFileKind, file.path);
    match file
    case Available(path) => Remove(WorkspaceLockFile(path, resource))
    case Locked(_) => Keep(SkippedResource(resource, LockedByProcess))
  }

  function ImageNames(images: seq<DefaultImageCandidate>): set<string> {
    set i | 0 <= i < |images| :: images[i].image
  }

  /** One verdict for each distinct image, at its first occurrence. */
  function ImageVerdicts(images: seq<DefaultImageCandidate>, containers: seq<CleanContainer>, contextHash: string)
    : seq<Verdict>
  {
    if images == [] then []
    else
      var n := |images| - 1;
      var before := ImageVerdicts(images[..n], containers, contextHash);
      if images[n].image in ImageNames(images[..n]) then before
      else before + [ImageVerdict(images[n], containers, contextHash)]
  }

  function VolumeVerdicts(volumes: seq<string>, containers: seq<CleanContainer>): seq<Verdict> {
    if volumes == [] then []
    else
      var n := |volumes| - 1;
      var before := VolumeVerdicts(volumes[..n], containers);
      if IsWorkspaceResourceName(volumes[n]) then before + [VolumeVerdict(volumes[n], containers)] else before
  }

  function LockFileVerdicts(files: seq<LockFileStatus>): seq<Verdict> {
    seq(|files|, i requires 0 <= i < |files| => LockFileVerdict(files[i]))
  }

  function Verdicts(scope: set<ResourceKind>, inventory: CleanInventory, contextHash: string): seq<Verdict> {
    (if ImageKind in scope
     then ImageVerdicts(inventory.defaultRuntimeImages, inventory.containers, contextHash) else [])
    + (if VolumeKind in scope then VolumeVerdicts(inventory.volumes, inventory.containers) else [])
    + (if LockFileKind in scope then LockFileVerdicts(inventory.lockFiles) else [])
  }

  function Removed(verdicts: seq<Verdict>): seq<CleanCandidate> {
    if verdicts == [] then []
    else
      var n := |verdicts| - 1;
      var before := Removed(verdicts[..n]);
      match verdicts[n] case Remove(candidate) => before + [candidate] case Keep(_) => before
  }

  function Kept(verdicts: seq<Verdict>): seq<SkippedResource> {
    if verdicts == [] then []
    else
      var n := |verdicts| - 1;
      var before := Kept(verdicts[..n]);
      match verdicts[n] case Remove(_) => before case Keep(skipped) => before + [skipped]
  }

  lemma {:induction false} VerdictsAppend(a: seq<Verdict>, b: seq<Verdict>)
    ensures Removed(a + b) == Removed(a) + Removed(b)
    ensures Kept(a + b) == Kept(a) + Kept(b)
  {
    if b == [] {
      assert a + b == a;
    } else {
      var n := |b| - 1;
      VerdictsAppend(a, b[..n]);
      assert (a + b)[..|a + b| - 1] == a + b[..n];
    }
  }

  class Plan {
    var candidates: seq<CleanCandidate>
    var skipped: seq<SkippedResource>

    constructor ()
      ensures Holds([])
    {
      candidates, skipped := [], [];
    }

    /** The plan lists what these verdicts say, in order. */
    ghost predicate Holds(verdicts: seq<Verdict>)
      reads this
    {
      candidates == Removed(verdicts) && skipped == Kept(verdicts)
    }

    method Remove(candidate: CleanCandidate, ghost verdicts: seq<Verdict>)
      requires Holds(verdicts)
      modifies this
      ensures Holds(verdicts + [Verdict.Remove(candidate)])
    {
      VerdictsAppend(verdicts, [Verdict.Remove(candidate)]);
      assert Removed([Verdict.Remove(candidate)]) == [candidate] && Kept([Verdict.Remove(candidate)]) == [];
      candidates := candidates + [candidate];
    }

    method Skip(resource: SkippedResource, ghost verdicts: seq<Verdict>)
      requires Holds(verdicts)
      modifies this
      ensures Holds(verdicts + [Keep(resource)])
    {
      VerdictsAppend(verdicts, [Keep(resource)]);
      assert Removed([Keep(resource)]) == [] && Kept([Keep(resource)]) == [resource];
      skipped := skipped + [resource];
    }

    /** `add_default_runtime_image_candidate` */
    method AddDefaultRuntimeImage(image: DefaultImageCandidate, usage: ResourceUsage, contextHash: string,
                                  ghost containers: seq<CleanContainer>, ghost verdicts: seq<Verdict>)
      requires Holds(verdicts) && usage.Indexes(containers)
      modifies this
      ensures Holds(verdicts + [ImageVerdict(image, containers, contextHash)])
    {
      hide Holds, DefaultImage, UserId;
      var resource := CleanResource(ImageKind, image.image);
      var user := usage.User(resource);
      if user.Some? {
        Skip(SkippedResource(resource, UsedBy(user.value)), verdicts);
      } else if resource.name == DefaultImage(image.runtime, contextHash) {
        Skip(SkippedResource(resource, CurrentDefaultImage), verdicts);
      } else {
        Remove(DefaultRuntimeImage(image.runtime, resource), verdicts);
      }
    }

    /** `add_default_runtime_image_candidates`: a reference that was seen before is passed over. */
    method AddDefaultRuntimeImages(images: seq<DefaultImageCandidate>, usage: ResourceUsage, contextHash: string,
                                   ghost containers: seq<CleanContainer>, ghost before: seq<Verdict>)
      requires Holds(before) && usage.Indexes(containers)
      modifies this
      ensures Holds(before + ImageVerdicts(images, containers, contextHash))
    {
      hide Holds, ImageVerdict;
      assert before + [] == before;
      var seen: set<string> := {};
      for i := 0 to |images|
        invariant usage.Indexes(containers)
        invariant seen == ImageNames(images[..i])
        invariant Holds(before + ImageVerdicts(images[..i], containers, contextHash))
      {
        assert images[..i + 1][..i] == images[..i];
        ghost var soFar := ImageVerdicts(images[..i], containers, contextHash);
        if images[i].image !in seen {
          seen := seen + {images[i].image};
          AddDefaultRuntimeImage(images[i], usage, contextHash, containers, before + soFar);
          assert before + soFar + [ImageVerdict(images[i], containers, contextHash)]
              == before + (soFar + [ImageVerdict(images[i], containers, contextHash)]);
        }
        NamesOfOneMore(images, i);
      }
      assert images[..|images|] == images;
    }

    /** `add_cache_volume_candidates` */
    method AddCacheVolumes(volumes: seq<string>, usage: ResourceUsage,
                           ghost containers: seq<CleanContainer>, ghost before: seq<Verdict>)
      requires Holds(before) && usage.Indexes(containers)
      modifies this
      ensures Holds(before + VolumeVerdicts(volumes, containers))
    {
      hide Holds, IsWorkspaceResourceName, UserId;
      assert before + [] == before;
      for i := 0 to |volumes|
        invariant usage.Indexes(containers)
        invariant Holds(before + VolumeVerdicts(volumes[..i], containers))
      {
        assert volumes[..i + 1][..i] == volumes[..i];
        ghost var soFar := VolumeVerdicts(volumes[..i], containers);
        if IsWorkspaceResourceName(volumes[i]) {
          assert before + soFar + [VolumeVerdict(volumes[i], containers)]
              == before + (soFar + [VolumeVerdict(volumes[i], containers)]);
          var resource := CleanResource(VolumeKind, volumes[i]);
          var user := usage.User(resource);
          if user.Some? {
            Skip(SkippedResource(resource, UsedBy(user.value)), before + soFar);
          } else {
            Remove(CacheVolume(resource), before + soFar);
          }
        }
      }
      assert volumes[..|volumes|] == volumes;
    }

    /** `add_lock_file_candidates` */
    method AddLockFiles(files: seq<LockFileStatus>, ghost before: seq<Verdict>)
      requires Holds(before)
      modifies this
      ensures Holds(before + LockFileVerdicts(files))
    {
      hide Holds;
      assert before + [] == before;
      for i := 0 to |files|
        invariant Holds(before + LockFileVerdicts(files)[..i])
      {
        ghost var soFar := LockFileVerdicts(files)[..i];
        assert before + soFar + [LockFileVerdict(files[i])] == before + LockFileVerdicts(files)[..i + 1];
        var resource := CleanResource(LockFileKind, files[i].path);
        match files[i] {
          case Available(path) => Remove(WorkspaceLockFile(path, resource), before + soFar);
          case Locked(_) => Skip(SkippedResource(resource, LockedByProcess), before + soFar);
        }
      }
      assert LockFileVerdicts(files)[..|files|] == LockFileVerdicts(files);
    }
  }

  lemma NamesOfOneMore(images: seq<DefaultImageCandidate>, i: nat)
    requires i < |images|
    ensures ImageNames(images[..i + 1]) == ImageNames(images[..i]) + {images[i].image}
  {
    var more, less := images[..i + 1], images[..i];
    forall name | name in ImageNames(less) ensures name in ImageNames(more) {
      var k :| 0 <= k < |less| && less[k].image == name;
      assert more[k].image == name;
    }
    assert more[i].image in ImageNames(more);
  }

  /** `CleanPlan::from_inventory` */
  method PlanFromInventory(scope: set<ResourceKind>, inventory: CleanInventory, contextHash: string)
    returns (plan: Plan)
    ensures fresh(plan)
    ensures plan.candidates == Removed(Verdicts(scope, inventory, contextHash))
    ensures plan.skipped == Kept(Verdicts(scope, inventory, contextHash))
  {
    hide ImageVerdicts, VolumeVerdicts, LockFileVerdicts;
    var usage := UsageFromContainers(inventory.containers);
    plan := new Plan();
    ghost var verdicts: seq<Verdict> := [];
    if ImageKind in scope {
      plan.AddDefaultRuntimeImages(inventory.defaultRuntimeImages, usage, contextHash, inventory.containers, verdicts);
      verdicts := verdicts + ImageVerdicts(inventory.defaultRuntimeImages, inventory.containers, contextHash);
    }
    if VolumeKind in scope {
      plan.AddCacheVolumes(inventory.volumes, usage, inventory.containers, verdicts);
      verdicts := verdicts + VolumeVerdicts(inventory.volumes, inventory.containers);
    }
    if LockFileKind in scope {
      plan.AddLockFiles(inventory.lockFiles, verdicts);
      verdicts := verdicts + LockFileVerdicts(inventory.lockFiles);
    }
    assert verdicts == Verdicts(scope, inventory, contextHash);
  }

  // ---------------------------------------------------------------- the plan is a safe partition

  function CandidateResources(candidates: seq<CleanCandidate>): seq<CleanResource> {
    seq(|candidates|, i requires 0 <= i < |candidates| => candidates[i].resource)
  }

  function SkippedResources(skipped: seq<SkippedResource>): seq<CleanResource> {
    seq(|skipped|, i requires 0 <= i < |skipped| => skipped[i].resource)
  }

  function Resources(verdicts: seq<Verdict>): seq<CleanResource> {
    seq(|verdicts|, i requires 0 <= i < |verdicts| => verdicts[i].Resource())
  }

  /** Each verdict puts its resource into exactly one of the two lists. */
  lemma {:induction false} ListsPartition(verdicts: seq<Verdict>)
    ensures multiset(CandidateResources(Removed(verdicts))) + multiset(SkippedResources(Kept(verdicts))) ==
            multiset(Resources(verdicts))
  {
    if verdicts != [] {
      var n := |verdicts| - 1;
      ListsPartition(verdicts[..n]);
      assert Resources(verdicts) == Resources(verdicts[..n]) + [verdicts[n].Resource()];
      match verdicts[n] {
        case Remove(candidate) =>
          assert CandidateResources(Removed(verdicts)) ==
                 CandidateResources(Removed(verdicts[..n])) + [candidate.resource];
        case Keep(skipped) =>
          assert SkippedResources(Kept(verdicts)) == SkippedResources(Kept(verdicts[..n])) + [skipped.resource];
      }
    }
  }

  /** How often a resource must be listed: once for an image, as often as it was found otherwise. */
  function InScope(scope: set<ResourceKind>, inventory: CleanInventory, resource: CleanResource): nat {
    if resource.kind !in scope then 0
    else match resource.kind
      case ImageKind => if resource.name in ImageNames(inventory.defaultRuntimeImages) then 1 else 0
      case VolumeKind =>
        if IsWorkspaceResourceName(resource.name) then multiset(inventory.volumes)[resource.name] else 0
      case LockFileKind => multiset(LockFilePaths(inventory.lockFiles))[resource.name]
  }

  function LockFilePaths(files: seq<LockFileStatus>): seq<string> {
    seq(|files|, i requires 0 <= i < |files| => files[i].path)
  }

  lemma {:induction false} ImageIsListedOnce(images: seq<DefaultImageCandidate>, containers: seq<CleanContainer>,
                                             contextHash: string, resource: CleanResource)
    ensures multiset(Resources(ImageVerdicts(images, containers, contextHash)))[resource] ==
            if resource.kind.ImageKind? && resource.name in ImageNames(images) then 1 else 0
  {
    if images != [] {
      var n := |images| - 1;
      var before := ImageVerdicts(images[..n], containers, contextHash);
      ImageIsListedOnce(images[..n], containers, contextHash, resource);
      NamesOfOneMore(images, n);
      assert images[..n + 1] == images;
      var verdict := ImageVerdict(images[n], containers, contextHash);
      assert verdict.Resource() == CleanResource(ImageKind, images[n].image);
      hide ImageVerdict;
      assert Resources(before + [verdict]) == Resources(before) + [verdict.Resource()];
    }
  }

  lemma {:induction false} VolumeIsListed(volumes: seq<string>, containers: seq<CleanContainer>,
                                          resource: CleanResource)
    ensures multiset(Resources(VolumeVerdicts(volumes, containers)))[resource] ==
            if resource.kind.VolumeKind? && IsWorkspaceResourceName(resource.name)
            then multiset(volumes)[resource.name] else 0
  {
    if volumes != [] {
      var n := |volumes| - 1;
      var before := VolumeVerdicts(volumes[..n], containers);
      VolumeIsListed(volumes[..n], containers, resource);
      assert volumes[..n] + [volumes[n]] == volumes;
      var verdict := VolumeVerdict(volumes[n], containers);
      assert verdict.Resource() == CleanResource(VolumeKind, volumes[n]);
      hide IsWorkspaceResourceName, VolumeVerdict;
      assert Resources(before + [verdict]) == Resources(before) + [verdict.Resource()];
    }
  }

  lemma {:induction false} LockFileIsListed(files: seq<LockFileStatus>, resource: CleanResource)
    ensures multiset(Resources(LockFileVerdicts(files)))[resource] ==
            if resource.kind.LockFileKind? then multiset(LockFilePaths(files))[resource.name] else 0
  {
    if files != [] {
      var n := |files| - 1;
      LockFileIsListed(files[..n], resource);
      assert LockFileVerdict(files[n]).Resource() == CleanResource(LockFileKind, files[n].path);
      assert Resources(LockFileVerdicts(files)) ==
             Resources(LockFileVerdicts(files[..n])) + [CleanResource(LockFileKind, files[n].path)];
      assert LockFilePaths(files) == LockFilePaths(files[..n]) + [files[n].path];
    }
  }

  lemma ResourcesAppend(a: seq<Verdict>, b: seq<Verdict>)
    ensures Resources(a + b) == Resources(a) + Resources(b)
  {
  }

  /** Nothing is lost and nothing is listed twice: candidates and skipped resources are the inventory in scope. */
  lemma PlanIsPartition(scope: set<ResourceKind>, inventory: CleanInventory, contextHash: string,
                        resource: CleanResource)
    ensures var verdicts := Verdicts(scope, inventory, contextHash);
            multiset(CandidateResources(Removed(verdicts)))[resource]
            + multiset(SkippedResources(Kept(verdicts)))[resource] == InScope(scope, inventory, resource)
  {
    hide ImageVerdicts, VolumeVerdicts, LockFileVerdicts, Removed, Kept, Resources, IsWorkspaceResourceName,
         CandidateResources, SkippedResources, LockFilePaths, ImageNames;
    var images := ImageVerdicts(inventory.defaultRuntimeImages, inventory.containers, contextHash);
    var volumes := VolumeVerdicts(inventory.volumes, inventory.containers);
    var files := LockFileVerdicts(inventory.lockFiles);
    ImageIsListedOnce(inventory.defaultRuntimeImages, inventory.containers, contextHash, resource);
    VolumeIsListed(inventory.volumes, inventory.containers, resource);
    LockFileIsListed(inventory.lockFiles, resource);
    var a := if ImageKind in scope then images else [];
    var b := if VolumeKind in scope then volumes else [];
    var c := if LockFileKind in scope then files else [];
    NoResources();
    ResourcesAppend(a, b);
    ResourcesAppend(a + b, c);
    ListsPartition(a + b + c);
    assert Verdicts(scope, inventory, contextHash) == a + b + c;
    assert multiset(Resources(a + b + c))[resource] ==
           multiset(Resources(a))[resource] + multiset(Resources(b))[resource] + multiset(Resources(c))[resource];
  }

  lemma NoResources()
    ensures Resources([]) == []
  {
  }

  lemma {:induction false} RemovedComesFromVerdict(verdicts: seq<Verdict>, candidate: CleanCandidate)
    ensures candidate in Removed(verdicts) <==> Remove(candidate) in verdicts
  {
    if verdicts != [] {
      var n := |verdicts| - 1;
      RemovedComesFromVerdict(verdicts[..n], candidate);
      assert verdicts == verdicts[..n] + [verdicts[n]];
    }
  }

  lemma {:induction false} ImageVerdictOrigin(images: seq<DefaultImageCandidate>, containers: seq<CleanContainer>,
                                              contextHash: string, verdict: Verdict)
    requires verdict in ImageVerdicts(images, containers, contextHash)
    ensures exists i :: 0 <= i < |images| && verdict == ImageVerdict(images[i], containers, contextHash)
  {
    hide ImageVerdict;
    var n := |images| - 1;
    if verdict in ImageVerdicts(images[..n], containers, contextHash) {
      ImageVerdictOrigin(images[..n], containers, contextHash, verdict);
      var i :| 0 <= i < n && verdict == ImageVerdict(images[..n][i], containers, contextHash);
      assert verdict == ImageVerdict(images[i], containers, contextHash);
    } else {
      assert verdict == ImageVerdict(images[n], containers, contextHash);
    }
  }

  lemma {:induction false} VolumeVerdictOrigin(volumes: seq<string>, containers: seq<CleanContainer>, verdict: Verdict)
    requires verdict in VolumeVerdicts(volumes, containers)
    ensures exists i ::
              && 0 <= i < |volumes| && IsWorkspaceResourceName(volumes[i])
              && verdict == VolumeVerdict(volumes[i], containers)
  {
    hide VolumeVerdict, IsWorkspaceResourceName;
    var n := |volumes| - 1;
    if verdict in VolumeVerdicts(volumes[..n], containers) {
      VolumeVerdictOrigin(volumes[..n], containers, verdict);
      var i :| 0 <= i < n && IsWorkspaceResourceName(volumes[..n][i])
               && verdict == VolumeVerdict(volumes[..n][i], containers);
      assert IsWorkspaceResourceName(volumes[i]);
    } else {
      assert IsWorkspaceResourceName(volumes[n]);
    }
  }

  /** Candidates of one name are the same candidate. */
  predicate NamesAreUnique(images: seq<DefaultImageCandidate>) {
    forall i, j :: 0 <= i < |images| && 0 <= j < |images| && images[i].image == images[j].image ==>
      images[i] == images[j]
  }

  /** The candidates of an inventory: a reference belongs to one runtime. */
  lemma LabeledNamesAreUnique(images: seq<PodmanImage>)
    ensures NamesAreUnique(LabeledImageCandidates(images))
  {
    var found := LabeledImageCandidates(images);
    forall i, j | 0 <= i < |found| && 0 <= j < |found| && found[i].image == found[j].image
      ensures found[i] == found[j]
    {
      ReferencesAreDisjoint(found[i].runtime, found[j].runtime, found[i].image);
    }
  }

  lemma {:induction false} EveryImageHasItsVerdict(images: seq<DefaultImageCandidate>, containers: seq<CleanContainer>,
                                                   contextHash: string, i: nat)
    requires i < |images| && NamesAreUnique(images)
    ensures ImageVerdict(images[i], containers, contextHash) in ImageVerdicts(images, containers, contextHash)
  {
    hide ImageVerdict;
    var n := |images| - 1;
    var front := images[..n];
    assert NamesAreUnique(front);
    if i < n {
      EveryImageHasItsVerdict(front, containers, contextHash, i);
    } else if images[n].image in ImageNames(front) {
      var k :| 0 <= k < |front| && front[k].image == images[n].image;
      EveryImageHasItsVerdict(front, containers, contextHash, k);
      assert images[k] == images[n];
    }
  }

  lemma {:induction false} EveryVolumeHasItsVerdict(volumes: seq<string>, containers: seq<CleanContainer>, i: nat)
    requires i < |volumes| && IsWorkspaceResourceName(volumes[i])
    ensures VolumeVerdict(volumes[i], containers) in VolumeVerdicts(volumes, containers)
  {
    hide VolumeVerdict, IsWorkspaceResourceName;
    var n := |volumes| - 1;
    if i < n {
      EveryVolumeHasItsVerdict(volumes[..n], containers, i);
    }
  }

  predicate IsUsed(containers: seq<CleanContainer>, resource: CleanResource) {
    exists i :: 0 <= i < |containers| && Uses(containers[i], resource)
  }

  /** The first container that uses the resource has this id. */
  predicate IsFirstUsedBy(containers: seq<CleanContainer>, resource: CleanResource, id: string) {
    exists i :: && 0 <= i < |containers| && containers[i].id == id && Uses(containers[i], resource)
                && forall j :: 0 <= j < i ==> !Uses(containers[j], resource)
  }

  lemma UserIdIff(containers: seq<CleanContainer>, resource: CleanResource)
    ensures UserId(containers, resource).None? <==> !IsUsed(containers, resource)
    ensures forall id :: UserId(containers, resource) == Some(id) <==> IsFirstUsedBy(containers, resource, id)
  {
    hide Uses;
    forall id | IsFirstUsedBy(containers, resource, id) ensures UserId(containers, resource) == Some(id) {
      var i :| && 0 <= i < |containers| && containers[i].id == id && Uses(containers[i], resource)
               && forall j :: 0 <= j < i ==> !Uses(containers[j], resource);
      assert FirstUser(containers, resource) == Some(i);
    }
  }

  predicate IsListedImage(scope: set<ResourceKind>, inventory: CleanInventory, runtime: RuntimeKind, name: string) {
    ImageKind in scope && DefaultImageCandidate(runtime, name) in inventory.defaultRuntimeImages
  }

  predicate IsListedVolume(scope: set<ResourceKind>, inventory: CleanInventory, name: string) {
    VolumeKind in scope && name in inventory.volumes && IsWorkspaceResourceName(name)
  }

  /**
    What may be removed: a listed image that no container runs and that is not the current default image
    of any runtime, a volume with a name that agentbox gives and that no container mounts, a lock file
    whose lock nobody held.
  */
  predicate MayBeRemoved(candidate: CleanCandidate, scope: set<ResourceKind>, inventory: CleanInventory,
                         contextHash: string)
  {
    match candidate
    case DefaultRuntimeImage(runtime, CleanResource(kind, name)) =>
      && kind == ImageKind && IsListedImage(scope, inventory, runtime, name)
      && (forall i :: 0 <= i < |inventory.containers| ==> inventory.containers[i].imageName != name)
      && (forall other :: name != DefaultImage(other, contextHash))
    case CacheVolume(CleanResource(kind, name)) =>
      && kind == VolumeKind && IsListedVolume(scope, inventory, name)
      && forall i, j :: 0 <= i < |inventory.containers| && 0 <= j < |inventory.containers[i].mounts| ==>
           !Mounts(inventory.containers[i].mounts[j], name)
    case WorkspaceLockFile(path, resource) =>
      LockFileKind in scope && resource == CleanResource(LockFileKind, path) && Available(path) in inventory.lockFiles
  }

  /** What is left alone, and why. */
  predicate IsToBeKept(skipped: SkippedResource, scope: set<ResourceKind>, inventory: CleanInventory,
                       contextHash: string)
  {
    var CleanResource(kind, name) := skipped.resource;
    match skipped.reason
    case UsedBy(id) =>
      && IsFirstUsedBy(inventory.containers, skipped.resource, id)
      && ((kind == VolumeKind && IsListedVolume(scope, inventory, name))
          || (kind == ImageKind && exists runtime :: IsListedImage(scope, inventory, runtime, name)))
    case CurrentDefaultImage =>
      && kind == ImageKind && !IsUsed(inventory.containers, skipped.resource)
      && exists runtime :: IsListedImage(scope, inventory, runtime, name) && name == DefaultImage(runtime, contextHash)
    case LockedByProcess =>
      LockFileKind in scope && kind == LockFileKind && Locked(name) in inventory.lockFiles
  }

  predicate IsJustified(verdict: Verdict, scope: set<ResourceKind>, inventory: CleanInventory, contextHash: string) {
    match verdict
    case Remove(candidate) => MayBeRemoved(candidate, scope, inventory, contextHash)
    case Keep(skipped) => IsToBeKept(skipped, scope, inventory, contextHash)
  }

  /** An unused resource in terms of images and mounts. */
  lemma UnusedIff(containers: seq<CleanContainer>, name: string)
    ensures !IsUsed(containers, CleanResource(ImageKind, name)) <==>
              forall i :: 0 <= i < |containers| ==> containers[i].imageName != name
    ensures !IsUsed(containers, CleanResource(VolumeKind, name)) <==>
              forall i, j :: 0 <= i < |containers| && 0 <= j < |containers[i].mounts| ==>
                !Mounts(containers[i].mounts[j], name)
  {
    hide Mounts;
    var volume := CleanResource(VolumeKind, name);
    if i, j :| 0 <= i < |containers| && 0 <= j < |containers[i].mounts| && Mounts(containers[i].mounts[j], name) {
      assert Uses(containers[i], volume);
    }
    if i :| 0 <= i < |containers| && containers[i].imageName == name {
      assert Uses(containers[i], CleanResource(ImageKind, name));
    }
  }

  lemma ImageVerdictIff(image: DefaultImageCandidate, scope: set<ResourceKind>, inventory: CleanInventory,
                        contextHash: string)
    requires ImageKind in scope && image in inventory.defaultRuntimeImages
    requires IsContentHashReference(image.runtime, image.image)
    ensures IsJustified(ImageVerdict(image, inventory.containers, contextHash), scope, inventory, contextHash)
  {
    hide UserId, IsUsed, IsFirstUsedBy, IsContextHash;
    UserIdIff(inventory.containers, CleanResource(ImageKind, image.image));
    UnusedIff(inventory.containers, image.image);
    assert IsListedImage(scope, inventory, image.runtime, image.image);
    forall other | image.image == DefaultImage(other, contextHash) ensures other == image.runtime {
      ReferencesAreDisjoint(image.runtime, other, image.image);
    }
  }

  lemma VolumeVerdictIff(volume: string, scope: set<ResourceKind>, inventory: CleanInventory, contextHash: string)
    requires IsListedVolume(scope, inventory, volume)
    ensures IsJustified(VolumeVerdict(volume, inventory.containers), scope, inventory, contextHash)
  {
    hide UserId, IsUsed, IsFirstUsedBy, IsWorkspaceResourceName;
    UserIdIff(inventory.containers, CleanResource(VolumeKind, volume));
    UnusedIff(inventory.containers, volume);
  }

  /** Every verdict of the plan is justified. */
  lemma VerdictsAreJustified(scope: set<ResourceKind>, inventory: CleanInventory, images: seq<PodmanImage>,
                             contextHash: string, verdict: Verdict)
    requires inventory.defaultRuntimeImages == LabeledImageCandidates(images)
    requires verdict in Verdicts(scope, inventory, contextHash)
    ensures IsJustified(verdict, scope, inventory, contextHash)
  {
    hide LabeledImageCandidates, IsJustified, ImageVerdict, VolumeVerdict, ImageVerdicts, VolumeVerdicts,
         IsWorkspaceResourceName, IsContentHashReference;
    var found := inventory.defaultRuntimeImages;
    if ImageKind in scope && verdict in ImageVerdicts(found, inventory.containers, contextHash) {
      ImageVerdictOrigin(found, inventory.containers, contextHash, verdict);
      var i :| 0 <= i < |found| && verdict == ImageVerdict(found[i], inventory.containers, contextHash);
      ImageVerdictIff(found[i], scope, inventory, contextHash);
    } else if VolumeKind in scope && verdict in VolumeVerdicts(inventory.volumes, inventory.containers) {
      VolumeVerdictOrigin(inventory.volumes, inventory.containers, verdict);
      var i :| && 0 <= i < |inventory.volumes| && IsWorkspaceResourceName(inventory.volumes[i])
               && verdict == VolumeVerdict(inventory.volumes[i], inventory.containers);
      VolumeVerdictIff(inventory.volumes[i], scope, inventory, contextHash);
    } else {
      LockFileVerdictsAreJustified(scope, inventory, contextHash, verdict);
    }
  }

  lemma LockFileVerdictsAreJustified(scope: set<ResourceKind>, inventory: CleanInventory, contextHash: string,
                                     verdict: Verdict)
    requires LockFileKind in scope && verdict in LockFileVerdicts(inventory.lockFiles)
    ensures IsJustified(verdict, scope, inventory, contextHash)
  {
    var i :| 0 <= i < |inventory.lockFiles| && verdict == LockFileVerdict(inventory.lockFiles[i]);
  }

  /** Every justified verdict is in the plan. */
  lemma JustifiedVerdictsArePlanned(scope: set<ResourceKind>, inventory: CleanInventory, images: seq<PodmanImage>,
                                    contextHash: string, verdict: Verdict)
    requires inventory.defaultRuntimeImages == LabeledImageCandidates(images)
    requires IsJustified(verdict, scope, inventory, contextHash)
    ensures verdict in Verdicts(scope, inventory, contextHash)
  {
    hide LabeledImageCandidates, ImageVerdicts, VolumeVerdicts, UserId, IsUsed, IsFirstUsedBy,
         IsWorkspaceResourceName, IsContentHashReference, DefaultImage, Mounts;
    var name := verdict.Resource().name;
    UserIdIff(inventory.containers, verdict.Resource());
    UnusedIff(inventory.containers, name);
    match verdict.Resource().kind {
      case ImageKind => {
        var runtime :| IsListedImage(scope, inventory, runtime, name)
                       && (verdict.Remove? ==> runtime == verdict.candidate.runtime)
                       && (verdict.Keep? && verdict.skipped.reason == CurrentDefaultImage ==>
                             name == DefaultImage(runtime, contextHash));
        var found := inventory.defaultRuntimeImages;
        LabeledNamesAreUnique(images);
        var i :| 0 <= i < |found| && found[i] == DefaultImageCandidate(runtime, name);
        EveryImageHasItsVerdict(found, inventory.containers, contextHash, i);
      }
      case VolumeKind => {
        var i :| 0 <= i < |inventory.volumes| && inventory.volumes[i] == name;
        EveryVolumeHasItsVerdict(inventory.volumes, inventory.containers, i);
      }
      case LockFileKind => {
        var status := if verdict.Remove? then Available(name) else Locked(name);
        var i :| 0 <= i < |inventory.lockFiles| && inventory.lockFiles[i] == status;
        assert LockFileVerdicts(inventory.lockFiles)[i] == verdict;
      }
    }
  }

  lemma {:induction false} KeptComesFromVerdict(verdicts: seq<Verdict>, skipped: SkippedResource)
    ensures skipped in Kept(verdicts) <==> Keep(skipped) in verdicts
  {
    if verdicts != [] {
      var n := |verdicts| - 1;
      KeptComesFromVerdict(verdicts[..n], skipped);
      assert verdicts == verdicts[..n] + [verdicts[n]];
    }
  }

  /** Whatever the inventory and the scope: the candidates are exactly what may be removed. */
  lemma CandidatesIff(scope: set<ResourceKind>, inventory: CleanInventory, images: seq<PodmanImage>,
                      contextHash: string, candidate: CleanCandidate)
    requires inventory.defaultRuntimeImages == LabeledImageCandidates(images)
    ensures candidate in Removed(Verdicts(scope, inventory, contextHash)) <==>
              MayBeRemoved(candidate, scope, inventory, contextHash)
  {
    hide LabeledImageCandidates, MayBeRemoved, IsToBeKept, Removed, Verdicts;
    RemovedComesFromVerdict(Verdicts(scope, inventory, contextHash), candidate);
    if Verdict.Remove(candidate) in Verdicts(scope, inventory, contextHash) {
      VerdictsAreJustified(scope, inventory, images, contextHash, Verdict.Remove(candidate));
    }
    if MayBeRemoved(candidate, scope, inventory, contextHash) {
      JustifiedVerdictsArePlanned(scope, inventory, images, contextHash, Verdict.Remove(candidate));
    }
  }

  /** And what is skipped is exactly what has to be left alone, each for its reason. */
  lemma SkippedIff(scope: set<ResourceKind>, inventory: CleanInventory, images: seq<PodmanImage>,
                   contextHash: string, skipped: SkippedResource)
    requires inventory.defaultRuntimeImages == LabeledImageCandidates(images)
    ensures skipped in Kept(Verdicts(scope, inventory, contextHash)) <==>
              IsToBeKept(skipped, scope, inventory, contextHash)
  {
    hide LabeledImageCandidates, MayBeRemoved, IsToBeKept, Kept, Verdicts;
    KeptComesFromVerdict(Verdicts(scope, inventory, contextHash), skipped);
    if Keep(skipped) in Verdicts(scope, inventory, contextHash) {
      VerdictsAreJustified(scope, inventory, images, contextHash, Keep(skipped));
    }
    if IsToBeKept(skipped, scope, inventory, contextHash) {
      JustifiedVerdictsArePlanned(scope, inventory, images, contextHash, Keep(skipped));
    }
  }

  /** Every launched cache volume has a name that `clean` recognises, so that it can be removed one day. */
  lemma LaunchedVolumeIsCleanable(mode: RunMode, runtime: RuntimeKind, workspace: Workspace, contextHash: string,
                                  hostNix: seq<RuntimeMount>, runtimeMounts: seq<RuntimeMount>,
                                  command: seq<string>, serverArgs: Option<string>, hash12: Hash12)
    requires IsResolved(workspace, hash12)
    ensures var spec := CreateSpecFor(mode, runtime, workspace, contextHash, hostNix, runtimeMounts, command,
                                      serverArgs);
            && |spec.mounts| >= 2 && spec.mounts[1].isVolume
            && IsWorkspaceResourceName(spec.mounts[1].source)
  {
    NamePassesFilterIff(workspace.root, workspace.hash);
    hide IsWorkspaceResourceName, ContainerName;
  }

  // ---------------------------------------------------------------- applying the plan

  /** Removes one candidate after the other; the outcome of each attempt is up to the host. */
  class CleanRemoval {
    const outcome: nat -> bool
    var attempted: seq<CleanCandidate>

    constructor (outcome: nat -> bool)
      ensures attempted == [] && this.outcome == outcome
    {
      this.outcome := outcome;
      attempted := [];
    }

    method RemoveCandidate(candidate: CleanCandidate) returns (removed: bool)
      modifies this`attempted
      ensures attempted == old(attempted) + [candidate]
      ensures removed == outcome(|old(attempted)|)
    {
      removed := outcome(|attempted|);
      attempted := attempted + [candidate];
    }
  }

  function FailedAttempts(candidates: seq<CleanCandidate>, outcome: nat -> bool, from: nat): seq<CleanResource> {
    if candidates == [] then []
    else
      var n := |candidates| - 1;
      FailedAttempts(candidates[..n], outcome, from) + if outcome(from + n) then [] else [candidates[n].resource]
  }

  predicate AttemptWorks(outcome: nat -> bool, from: nat, i: nat) {
    outcome(from + i)
  }

  /** The failures are exactly the resources whose attempt did not work. */
  lemma {:induction false} FailedAttemptsIff(candidates: seq<CleanCandidate>, outcome: nat -> bool, from: nat,
                                             resource: CleanResource)
    ensures resource in FailedAttempts(candidates, outcome, from) <==>
              exists i :: 0 <= i < |candidates| && candidates[i].resource == resource && !AttemptWorks(outcome, from, i)
  {
    if candidates != [] {
      var n := |candidates| - 1;
      var front := candidates[..n];
      FailedAttemptsIff(front, outcome, from, resource);
      var before := FailedAttempts(front, outcome, from);
      assert FailedAttempts(candidates, outcome, from) ==
             before + if AttemptWorks(outcome, from, n) then [] else [candidates[n].resource];
      hide FailedAttempts, AttemptWorks;
      assert forall i :: 0 <= i < n ==> front[i] == candidates[i];
    }
  }

  lemma {:induction false} NothingFailsIff(candidates: seq<CleanCandidate>, outcome: nat -> bool, from: nat)
    ensures FailedAttempts(candidates, outcome, from) == [] <==>
              forall i :: 0 <= i < |candidates| ==> AttemptWorks(outcome, from, i)
  {
    if candidates != [] {
      var n := |candidates| - 1;
      NothingFailsIff(candidates[..n], outcome, from);
      assert AttemptWorks(outcome, from, n) == outcome(from + n);
    }
  }

  /** `apply_clean_plan_with`: a failure is noted and the next candidate is tried all the same. */
  method ApplyCleanPlan(removal: CleanRemoval, plan: Plan) returns (r: Result<(), seq<CleanResource>>)
    modifies removal`attempted
    ensures removal.attempted == old(removal.attempted) + plan.candidates
    ensures var failures := FailedAttempts(plan.candidates, removal.outcome, |old(removal.attempted)|);
            r == if failures == [] then Ok(()) else Err(failures)
    ensures r.Ok? <==> forall i :: 0 <= i < |plan.candidates| ==>
                         AttemptWorks(removal.outcome, |old(removal.attempted)|, i)
  {
    var failures: seq<CleanResource> := [];
    ghost var from := |removal.attempted|;
    NothingFailsIff(plan.candidates, removal.outcome, from);
    for i := 0 to |plan.candidates|
      invariant removal.attempted == old(removal.attempted) + plan.candidates[..i]
      invariant failures == FailedAttempts(plan.candidates[..i], removal.outcome, from)
    {
      assert plan.candidates[..i + 1][..i] == plan.candidates[..i];
      var removed := removal.RemoveCandidate(plan.candidates[i]);
      if !removed {
        failures := failures + [plan.candidates[i].resource];
      }
    }
    assert plan.candidates[..|plan.candidates|] == plan.candidates;
    r := if failures == [] then Ok(()) else Err(failures);
  }
}
