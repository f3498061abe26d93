/**
  Session discovery: the scan over `podman ps` with its hash prefilter, the classification of what
  inspection finds, and the marking of duplicates. A query for one git root skips containers without
  inspecting them; it must still agree with the query for all roots.
*/
module Discovery {
  import opened Wrappers
  import opened Text
  import opened Runtimes
  import opened Sessions
  import opened LaunchSpec

  datatype PsContainer = PsContainer(id: string, names: Option<seq<string>>, labels: Labels)

  datatype ContainerScope = ManagedSessions | AgentboxOwned

  datatype Scope = AllRoots | OneRoot(root: string)

  datatype DiscoveryError = InspectFailed(id: string) | IdentityCollision(root: string, others: set<string>)

  /** What the scan can see: inspection by id, the hash of roots, and the host's git roots. */
  datatype Host = Host(inspect: string -> Option<Inspect>, hash12: Hash12, probe: GitRootProbe)

  predicate Includes(scope: ContainerScope, kind: ContainerKind) {
    scope.ManagedSessions? ==> kind == Managed
  }

  /** `ps_candidate` */
  function PsCandidate(container: PsContainer, scope: ContainerScope): Option<ContainerKind> {
    match KindFromLabels(container.labels)
    case None => None
    case Some(kind) => if Includes(scope, kind) then Some(kind) else None
  }

  /** The prefilter: a container whose own hash label names another root is not inspected. */
  predicate ShouldInspect(container: PsContainer, scope: Scope, hash12: Hash12) {
    match scope
    case AllRoots => true
    case OneRoot(root) =>
      match Label(container.labels, LabelGitRootHash)
      case None => true
      case Some(hash) => hash == hash12(root)
  }

  function ContainerName(container: PsContainer): string {
    if container.names.Some? && container.names.value != [] then container.names.value[0] else container.id
  }

  function RecordOf(container: PsContainer, kind: ContainerKind, inspect: Inspect, host: Host): SessionRecord {
    BuildSessionRecord(container.id, ContainerName(container), kind, inspect, host.hash12, host.probe)
  }

  datatype Classified = Match | Collision(root: string) | Ignore

  /** `classify_session` */
  function Classify(record: SessionRecord, scope: Scope, hash12: Hash12): Classified {
    match scope
    case AllRoots => Match
    case OneRoot(root) =>
      if record.Root() == Some(root) then Match
      else if record.Hash() != Some(hash12(root)) then Ignore
      else match record.Root()
        case Some(other) => Collision(other)
        case None => Match
  }

  // ---------------------------------------------------------------- duplicates

  predicate IsLive(record: SessionRecord) {
    !record.status.Failed?
  }

  predicate IsLiveOf(record: SessionRecord, root: string) {
    IsLive(record) && record.Root() == Some(root)
  }

  /** The records of this root that have not failed, in order. */
  function LiveOfRoot(sessions: seq<SessionRecord>, root: string): (live: seq<SessionRecord>)
    ensures |live| <= |sessions|
  {
    if sessions == [] then []
    else
      var last := sessions[|sessions| - 1];
      var before := LiveOfRoot(sessions[..|sessions| - 1], root);
      if IsLiveOf(last, root) then before + [last] else before
  }

  function Mark(sessions: seq<SessionRecord>, record: SessionRecord): SessionRecord {
    if IsLive(record) && record.Root().Some? && |LiveOfRoot(sessions, record.Root().value)| > 1
    then record.(status := Duplicate) else record
  }

  function Marked(sessions: seq<SessionRecord>): seq<SessionRecord> {
    seq(|sessions|, i requires 0 <= i < |sessions| => Mark(sessions, sessions[i]))
  }

  /** The sizes count the live records, root by root. */
  ghost predicate Counts(groupSizes: map<string, nat>, sessions: seq<SessionRecord>) {
    forall root: string :: (if root in groupSizes then groupSizes[root] else 0) == |LiveOfRoot(sessions, root)|
  }

  lemma CountsOfOneMore(groupSizes: map<string, nat>, sessions: seq<SessionRecord>, record: SessionRecord)
    requires Counts(groupSizes, sessions)
    ensures Counts(if !IsLive(record) || record.Root().None? then groupSizes
                   else
                     var root := record.Root().value;
                     groupSizes[root := (if root in groupSizes then groupSizes[root] else 0) + 1],
                   sessions + [record])
  {
    forall root ensures |LiveOfRoot(sessions + [record], root)| ==
                        |LiveOfRoot(sessions, root)| + if IsLiveOf(record, root) then 1 else 0
    {
      LiveOfOneMore(sessions, record, root);
    }
  }

  /** `mark_duplicate_sessions`: count the live records of each root, then mark in place. */
  method MarkDuplicateSessions(found: seq<SessionRecord>) returns (sessions: seq<SessionRecord>)
    ensures sessions == Marked(found)
  {
    hide LiveOfRoot, Counts;
    var groupSizes: map<string, nat> := map[];
    assert Counts(groupSizes, []) by {
      NothingCounted();
    }
    for i := 0 to |found|
      invariant Counts(groupSizes, found[..i])
    {
      CountsOfOneMore(groupSizes, found[..i], found[i]);
      assert found[..i + 1] == found[..i] + [found[i]];
      if !IsLive(found[i]) {
        continue;
      }
      if found[i].Root().Some? {
        var root := found[i].Root().value;
        groupSizes := groupSizes[root := (if root in groupSizes then groupSizes[root] else 0) + 1];
      }
    }
    assert found[..|found|] == found;
    sessions := found;
    for i := 0 to |sessions|
      invariant |sessions| == |found|
      invariant forall j | 0 <= j < i :: sessions[j] == Mark(found, found[j])
      invariant forall j | i <= j < |found| :: sessions[j] == found[j]
    {
      if !IsLive(sessions[i]) {
        continue;
      }
      var root := sessions[i].Root();
      if root.Some? {
        CountOf(groupSizes, found, root.value);
      }
      if root.Some? && root.value in groupSizes && groupSizes[root.value] > 1 {
        sessions := sessions[i := sessions[i].(status := Duplicate)];
      }
    }
  }

  lemma NothingCounted()
    ensures Counts(map[], [])
  {
  }

  lemma CountOf(groupSizes: map<string, nat>, sessions: seq<SessionRecord>, root: string)
    requires Counts(groupSizes, sessions)
    ensures (if root in groupSizes then groupSizes[root] else 0) == |LiveOfRoot(sessions, root)|
  {
  }

  lemma LiveOfOneMore(records: seq<SessionRecord>, record: SessionRecord, root: string)
    ensures LiveOfRoot(records + [record], root) ==
            if IsLiveOf(record, root) then LiveOfRoot(records, root) + [record] else LiveOfRoot(records, root)
  {
    assert (records + [record])[..|records|] == records;
  }

  /** A live record of the root exists. */
  predicate HasOne(sessions: seq<SessionRecord>, root: string) {
    exists i :: 0 <= i < |sessions| && IsLiveOf(sessions[i], root)
  }

  predicate HasPair(sessions: seq<SessionRecord>, root: string) {
    exists i, j :: 0 <= i < j < |sessions| && IsLiveOf(sessions[i], root) && IsLiveOf(sessions[j], root)
  }

  lemma OneAndPairOfOneMore(front: seq<SessionRecord>, last: SessionRecord, root: string)
    ensures HasOne(front + [last], root) <==> HasOne(front, root) || IsLiveOf(last, root)
    ensures HasPair(front + [last], root) <==> HasPair(front, root) || (HasOne(front, root) && IsLiveOf(last, root))
  {
    hide IsLiveOf;
    var all := front + [last];
    assert all[|front|] == last;
    forall i | 0 <= i < |front| ensures all[i] == front[i] {}
    if i :| 0 <= i < |front| && IsLiveOf(front[i], root) {
      assert IsLiveOf(all[i], root);
    }
    if i, j :| 0 <= i < j < |front| && IsLiveOf(front[i], root) && IsLiveOf(front[j], root) {
      assert IsLiveOf(all[i], root) && IsLiveOf(all[j], root);
    }
  }

  /** A group has more than one member exactly if two different records are live and of its root. */
  lemma {:induction false} GroupSizes(sessions: seq<SessionRecord>, root: string)
    ensures LiveOfRoot(sessions, root) != [] <==> HasOne(sessions, root)
    ensures |LiveOfRoot(sessions, root)| > 1 <==> HasPair(sessions, root)
  {
    if sessions != [] {
      var front, last := sessions[..|sessions| - 1], sessions[|sessions| - 1];
      assert front + [last] == sessions;
      OneAndPairOfOneMore(front, last, root);
      hide HasOne, HasPair, IsLiveOf;
      GroupSizes(front, root);
    }
  }

  /** Both records have a root, the same one, and neither has failed. */
  predicate SharesRoot(a: SessionRecord, b: SessionRecord) {
    !a.status.Failed? && !b.status.Failed? && a.Root().Some? && a.Root() == b.Root()
  }

  /**
    Duplicate marking is exact: only the status can change, failed records are left alone, and a
    record ends up Duplicate exactly if it was one or another live record has its root.
  */
  lemma MarkingIsExact(sessions: seq<SessionRecord>, i: nat)
    requires i < |sessions|
    ensures |Marked(sessions)| == |sessions|
    ensures Marked(sessions)[i].(status := sessions[i].status) == sessions[i]
    ensures sessions[i].status.Failed? ==> Marked(sessions)[i] == sessions[i]
    ensures Marked(sessions)[i].status == Duplicate <==>
              || sessions[i].status == Duplicate
              || exists j :: 0 <= j < |sessions| && j != i && SharesRoot(sessions[i], sessions[j])
    ensures Marked(sessions)[i].status != Duplicate ==> Marked(sessions)[i] == sessions[i]
  {
    hide LiveOfRoot;
    if IsLive(sessions[i]) && sessions[i].Root().Some? {
      var root := sessions[i].Root().value;
      GroupSizes(sessions, root);
      if a, b :| 0 <= a < b < |sessions| && IsLiveOf(sessions[a], root) && IsLiveOf(sessions[b], root) {
        var j := if a == i then b else a;
        assert SharesRoot(sessions[i], sessions[j]);
      }
      if j :| 0 <= j < |sessions| && j != i && SharesRoot(sessions[i], sessions[j]) {
        assert IsLiveOf(sessions[i], root) && IsLiveOf(sessions[j], root);
      }
    }
  }

  /**
    Of several live sessions of one root `connect` accepts none: a marked record is accepted exactly if
    it was acceptable and no other live record has its root.
  */
  lemma SharedRootIsNotConnectable(sessions: seq<SessionRecord>, i: nat)
    requires i < |sessions|
    ensures var shared := exists j :: 0 <= j < |sessions| && j != i && SharesRoot(sessions[i], sessions[j]);
            && (shared ==> PrepareConnectSession(Marked(sessions)[i]) == Err(DuplicateSessions))
            && (!shared ==> PrepareConnectSession(Marked(sessions)[i]) == PrepareConnectSession(sessions[i]))
  {
    MarkingIsExact(sessions, i);
    ConnectErrors(sessions[i]);
    ConnectErrors(Marked(sessions)[i]);
    hide PrepareConnectSession, Mark, SharesRoot;
  }

  predicate IsPermutation(p: seq<nat>, n: nat) {
    && |p| == n
    && (forall i :: 0 <= i < n ==> p[i] < n)
    && (forall i, j :: 0 <= i < j < n ==> p[i] != p[j])
    && (forall k: nat :: k < n ==> k in p)
  }

  function Permuted<T>(s: seq<T>, p: seq<nat>): seq<T>
    requires IsPermutation(p, |s|)
  {
    seq(|s|, i requires 0 <= i < |s| => s[p[i]])
  }

  /** Whether a root has a pair does not depend on the order. */
  lemma PairsPermute(sessions: seq<SessionRecord>, p: seq<nat>, root: string)
    requires IsPermutation(p, |sessions|)
    ensures HasPair(Permuted(sessions, p), root) <==> HasPair(sessions, root)
  {
    hide IsLiveOf;
    var t := Permuted(sessions, p);
    if i, j :| 0 <= i < j < |t| && IsLiveOf(t[i], root) && IsLiveOf(t[j], root) {
      var a, b := if p[i] < p[j] then p[i] else p[j], if p[i] < p[j] then p[j] else p[i];
      assert IsLiveOf(sessions[a], root) && IsLiveOf(sessions[b], root);
    }
    if a, b :| 0 <= a < b < |sessions| && IsLiveOf(sessions[a], root) && IsLiveOf(sessions[b], root) {
      assert a in p && b in p;
      var i :| 0 <= i < |t| && p[i] == a;
      var j :| 0 <= j < |t| && p[j] == b;
      assert IsLiveOf(t[i], root) && IsLiveOf(t[j], root);
    }
  }

  /** Marking commutes with every reordering of the records. */
  lemma MarkingCommutesWithPermutation(sessions: seq<SessionRecord>, p: seq<nat>)
    requires IsPermutation(p, |sessions|)
    ensures Marked(Permuted(sessions, p)) == Permuted(Marked(sessions), p)
  {
    hide LiveOfRoot, HasPair, IsLive;
    var t := Permuted(sessions, p);
    forall i | 0 <= i < |t| ensures Mark(t, t[i]) == Marked(sessions)[p[i]] {
      if t[i].Root().Some? {
        PairsPermute(sessions, p, t[i].Root().value);
        GroupSizes(t, t[i].Root().value);
        GroupSizes(sessions, t[i].Root().value);
      }
    }
  }

  function AllDuplicate(sessions: seq<SessionRecord>): seq<SessionRecord> {
    if sessions == [] then []
    else AllDuplicate(sessions[..|sessions| - 1]) + [sessions[|sessions| - 1].(status := Duplicate)]
  }

  /** The live records of one root after marking depend on nothing but those before. */
  function MarkedGroup(live: seq<SessionRecord>): seq<SessionRecord> {
    if |live| > 1 then AllDuplicate(live) else live
  }

  /** Marking with the group sizes of `all`. */
  function MarkedIn(all: seq<SessionRecord>, part: seq<SessionRecord>): seq<SessionRecord> {
    seq(|part|, i requires 0 <= i < |part| => Mark(all, part[i]))
  }

  lemma MarkOfRoot(all: seq<SessionRecord>, record: SessionRecord, root: string)
    ensures IsLiveOf(Mark(all, record), root) <==> IsLiveOf(record, root)
    ensures IsLiveOf(record, root) ==>
              Mark(all, record) == if |LiveOfRoot(all, root)| > 1 then record.(status := Duplicate) else record
  {
    hide LiveOfRoot;
  }

  lemma {:induction false} LiveAfterMarkingIn(all: seq<SessionRecord>, part: seq<SessionRecord>, root: string)
    ensures var live := LiveOfRoot(part, root);
            LiveOfRoot(MarkedIn(all, part), root) == if |LiveOfRoot(all, root)| > 1 then AllDuplicate(live) else live
  {
    if part != [] {
      hide LiveOfRoot, Mark, MarkedIn, IsLiveOf, AllDuplicate;
      var n := |part| - 1;
      var front, last := part[..n], part[n];
      assert part == front + [last];
      LiveAfterMarkingIn(all, front, root);
      MarkedInOneMore(all, front, last);
      LiveOfOneMore(MarkedIn(all, front), Mark(all, last), root);
      LiveOfOneMore(front, last, root);
      MarkOfRoot(all, last, root);
      DuplicatesOfOneMore(LiveOfRoot(front, root), last);
    } else {
      assert AllDuplicate([]) == [];
    }
  }

  lemma MarkedInOneMore(all: seq<SessionRecord>, front: seq<SessionRecord>, last: SessionRecord)
    ensures MarkedIn(all, front + [last]) == MarkedIn(all, front) + [Mark(all, last)]
  {
    hide Mark;
  }

  lemma DuplicatesOfOneMore(sessions: seq<SessionRecord>, record: SessionRecord)
    ensures AllDuplicate(sessions + [record]) == AllDuplicate(sessions) + [record.(status := Duplicate)]
  {
    assert (sessions + [record])[..|sessions|] == sessions;
  }

  lemma LiveAfterMarking(sessions: seq<SessionRecord>, root: string)
    ensures LiveOfRoot(Marked(sessions), root) == MarkedGroup(LiveOfRoot(sessions, root))
  {
    LiveAfterMarkingIn(sessions, sessions, root);
    assert Marked(sessions) == MarkedIn(sessions, sessions);
  }

  /** Marking a second time changes nothing. */
  lemma MarkingIsIdempotent(sessions: seq<SessionRecord>)
    ensures Marked(Marked(sessions)) == Marked(sessions)
  {
    var marked := Marked(sessions);
    forall i | 0 <= i < |marked| ensures Mark(marked, marked[i]) == marked[i] {
      if sessions[i].Root().Some? {
        LiveAfterMarking(sessions, sessions[i].Root().value);
      }
    }
  }

  // ---------------------------------------------------------------- the scan

  /** What one container adds to a scan: nothing, a record, or the end of the scan. */
  function Inspected(container: PsContainer, scope: Scope, containerScope: ContainerScope, host: Host)
    : Result<seq<SessionRecord>, DiscoveryError>
  {
    match PsCandidate(container, containerScope)
    case None => Ok([])
    case Some(kind) =>
      if !ShouldInspect(container, scope, host.hash12) then Ok([])
      else match host.inspect(container.id)
        case None => Err(InspectFailed(container.id))
        case Some(inspect) => Ok([RecordOf(container, kind, inspect, host)])
  }

  /** The records of all inspected containers in order, or the first failure to inspect one. */
  function Scan(containers: seq<PsContainer>, scope: Scope, containerScope: ContainerScope, host: Host)
    : Result<seq<SessionRecord>, DiscoveryError>
  {
    if containers == [] then Ok([])
    else
      var n := |containers| - 1;
      match Scan(containers[..n], scope, containerScope, host)
      case Err(error) => Err(error)
      case Ok(records) =>
        match Inspected(containers[n], scope, containerScope, host)
        case Err(error) => Err(error)
        case Ok(more) => Ok(records + more)
  }

  function Matches(records: seq<SessionRecord>, scope: Scope, hash12: Hash12): seq<SessionRecord> {
    if records == [] then []
    else
      var last := records[|records| - 1];
      var before := Matches(records[..|records| - 1], scope, hash12);
      if Classify(last, scope, hash12).Match? then before + [last] else before
  }

  function CollidingRoots(records: seq<SessionRecord>, scope: Scope, hash12: Hash12): set<string> {
    set i | 0 <= i < |records| && Classify(records[i], scope, hash12).Collision? ::
      Classify(records[i], scope, hash12).root
  }

  function Discovered(containers: seq<PsContainer>, scope: Scope, containerScope: ContainerScope, host: Host)
    : Result<seq<SessionRecord>, DiscoveryError>
  {
    match Scan(containers, scope, containerScope, host)
    case Err(error) => Err(error)
    case Ok(records) =>
      var others := CollidingRoots(records, scope, host.hash12);
      if others != {} && scope.OneRoot? then Err(IdentityCollision(scope.root, others))
      else Ok(Marked(Matches(records, scope, host.hash12)))
  }

  class SessionCollector {
    const scope: Scope
    const hash12: Hash12
    var sessions: seq<SessionRecord>
    var mismatchedRoots: seq<string>

    constructor (scope: Scope, hash12: Hash12)
      ensures this.scope == scope && this.hash12 == hash12
      ensures sessions == [] && mismatchedRoots == []
    {
      this.scope, this.hash12 := scope, hash12;
      sessions, mismatchedRoots := [], [];
    }

    /** The collector holds what these records amount to. */
    ghost predicate Holds(records: seq<SessionRecord>)
      reads this
    {
      && sessions == Matches(records, scope, hash12)
      && (set root | root in mismatchedRoots) == CollidingRoots(records, scope, hash12)
    }

    lemma HoldsNothing()
      requires sessions == [] && mismatchedRoots == []
      ensures Holds([])
    {
    }

    method Collect(record: SessionRecord, ghost records: seq<SessionRecord>)
      requires Holds(records)
      modifies this`sessions, this`mismatchedRoots
      ensures Holds(records + [record])
    {
      assert (records + [record])[..|records|] == records;
      CollidingRootsOfOneMore(records, record, scope, hash12);
      match Classify(record, scope, hash12) {
        case Match => sessions := sessions + [record];
        case Collision(root) => mismatchedRoots := mismatchedRoots + [root];
        case Ignore =>
      }
    }

    /** The order and the repetitions of the mismatched roots only affect the wording of the error. */
    method Finish(ghost records: seq<SessionRecord>) returns (r: Result<seq<SessionRecord>, DiscoveryError>)
      requires Holds(records)
      ensures var others := CollidingRoots(records, scope, hash12);
              r == if others != {} && scope.OneRoot? then Err(IdentityCollision(scope.root, others))
                   else Ok(Marked(Matches(records, scope, hash12)))
    {
      if scope.OneRoot? {
        var others := set root | root in mismatchedRoots;
        if mismatchedRoots != [] {
          assert mismatchedRoots[0] in others;
          return Err(IdentityCollision(scope.root, others));
        }
      }
      var marked := MarkDuplicateSessions(sessions);
      return Ok(marked);
    }
  }

  lemma CollidingRootsOfOneMore(records: seq<SessionRecord>, record: SessionRecord, scope: Scope, hash12: Hash12)
    ensures CollidingRoots(records + [record], scope, hash12) ==
            CollidingRoots(records, scope, hash12)
            + match Classify(record, scope, hash12) { case Collision(root) => {root} case _ => {} }
  {
    var all := records + [record];
    forall i | 0 <= i < |records| ensures all[i] == records[i] {}
    assert all[|records|] == record;
    forall root | root in CollidingRoots(records, scope, hash12) ensures root in CollidingRoots(all, scope, hash12) {
      var i :| 0 <= i < |records| && Classify(records[i], scope, hash12) == Collision(root);
      assert Classify(all[i], scope, hash12) == Collision(root);
    }
    if Classify(record, scope, hash12).Collision? {
      assert Classify(all[|records|], scope, hash12).root in CollidingRoots(all, scope, hash12);
    }
  }

  /** `discover_sessions_from_ps_with_git_root_probe` */
  method Discover(containers: seq<PsContainer>, scope: Scope, containerScope: ContainerScope, host: Host)
    returns (r: Result<seq<SessionRecord>, DiscoveryError>)
    ensures r == Discovered(containers, scope, containerScope, host)
  {
    hide RecordOf, SessionCollector.Holds, KindFromLabels, ShouldInspect, Marked, Matches, CollidingRoots;
    var collector := new SessionCollector(scope, host.hash12);
    assert collector.Holds([]) by {
      collector.HoldsNothing();
    }
    ghost var records: seq<SessionRecord> := [];
    for i := 0 to |containers|
      invariant Scan(containers[..i], scope, containerScope, host) == Ok(records)
      invariant collector.Holds(records)
    {
      assert containers[..i + 1][..i] == containers[..i];
      var candidate := PsCandidate(containers[i], containerScope);
      if candidate.None? || !ShouldInspect(containers[i], scope, host.hash12) {
        assert records + [] == records;
        continue;
      }
      var inspect := host.inspect(containers[i].id);
      if inspect.None? {
        ScanFailureIsFinal(containers, i + 1, scope, containerScope, host);
        return Err(InspectFailed(containers[i].id));
      }
      var record := RecordOf(containers[i], candidate.value, inspect.value, host);
      collector.Collect(record, records);
      records := records + [record];
    }
    assert containers[..|containers|] == containers;
    r := collector.Finish(records);
  }

  /** The first inspection that fails decides the whole scan. */
  lemma {:induction false} ScanFailureIsFinal(containers: seq<PsContainer>, k: nat, scope: Scope,
                                              containerScope: ContainerScope, host: Host)
    requires k <= |containers| && Scan(containers[..k], scope, containerScope, host).Err?
    ensures Scan(containers, scope, containerScope, host) == Scan(containers[..k], scope, containerScope, host)
  {
    if k == |containers| {
      assert containers[..k] == containers;
    } else {
      var front := containers[..|containers| - 1];
      assert front[..k] == containers[..k];
      ScanFailureIsFinal(front, k, scope, containerScope, host);
    }
  }

  // ---------------------------------------------------------------- agreement of the two queries

  /** The listing and the inspection of a container show the same labels. */
  predicate LabelsAgree(container: PsContainer, host: Host) {
    var inspect := host.inspect(container.id);
    inspect.Some? ==> inspect.value.labels == container.labels
  }

  /** The container carries the hash of the root but the name of another one. */
  predicate Collides(container: PsContainer, containerScope: ContainerScope, root: string, hash12: Hash12) {
    && PsCandidate(container, containerScope).Some?
    && Label(container.labels, LabelGitRootHash) == Some(hash12(root))
    && Label(container.labels, LabelGitRoot).Some? && Label(container.labels, LabelGitRoot).value != root
  }

  /** A record that has not failed carries the hash of its own root. */
  lemma LiveHashIsOfRoot(container: PsContainer, kind: ContainerKind, inspect: Inspect, host: Host)
    requires IsLive(RecordOf(container, kind, inspect, host))
    ensures var record := RecordOf(container, kind, inspect, host);
            record.Root().Some? && record.Hash() == Some(host.hash12(record.Root().value))
  {
    hide EndpointReport, IsOrphaned, HasVolumeMount, HasContainerMarker;
  }

  function LiveMatches(records: seq<SessionRecord>, root: string, hash12: Hash12): seq<SessionRecord> {
    LiveOfRoot(Matches(records, OneRoot(root), hash12), root)
  }

  lemma LiveMatchesOfOneMore(records: seq<SessionRecord>, record: SessionRecord, root: string, hash12: Hash12)
    ensures LiveMatches(records + [record], root, hash12) ==
            if IsLiveOf(record, root) then LiveMatches(records, root, hash12) + [record]
            else LiveMatches(records, root, hash12)
  {
    assert (records + [record])[..|records|] == records;
    var before := Matches(records, OneRoot(root), hash12);
    assert (before + [record])[..|before|] == before;
  }

  /** Both scans see the same live sessions of the root, and the narrow one succeeds if the wide one does. */
  lemma {:induction false} ScansAgree(containers: seq<PsContainer>, containerScope: ContainerScope, root: string,
                                      host: Host)
    requires forall i :: 0 <= i < |containers| ==> LabelsAgree(containers[i], host)
    requires Scan(containers, AllRoots, containerScope, host).Ok?
    ensures Scan(containers, OneRoot(root), containerScope, host).Ok?
    ensures LiveMatches(Scan(containers, OneRoot(root), containerScope, host).value, root, host.hash12) ==
            LiveOfRoot(Scan(containers, AllRoots, containerScope, host).value, root)
    ensures CollidingRoots(Scan(containers, OneRoot(root), containerScope, host).value, OneRoot(root), host.hash12)
            != {}
            <==> exists i :: 0 <= i < |containers| && Collides(containers[i], containerScope, root, host.hash12)
  {
    if containers != [] {
      var n := |containers| - 1;
      var front, last := containers[..n], containers[n];
      ScansAgree(front, containerScope, root, host);
      var narrow := Scan(front, OneRoot(root), containerScope, host).value;
      var wide := Scan(front, AllRoots, containerScope, host).value;
      CollisionsOfOneMore(containers, containerScope, root, host.hash12);
      LastAgrees(last, containerScope, root, host, narrow, wide);
    }
  }

  lemma CollisionsOfOneMore(containers: seq<PsContainer>, containerScope: ContainerScope, root: string, hash12: Hash12)
    requires containers != []
    ensures var n := |containers| - 1;
            (exists i :: 0 <= i < |containers| && Collides(containers[i], containerScope, root, hash12)) <==>
              || (exists i :: 0 <= i < n && Collides(containers[..n][i], containerScope, root, hash12))
              || Collides(containers[n], containerScope, root, hash12)
  {
    var n := |containers| - 1;
    if i :| 0 <= i < n && Collides(containers[..n][i], containerScope, root, hash12) {
      assert Collides(containers[i], containerScope, root, hash12);
    }
    if i :| 0 <= i < |containers| && Collides(containers[i], containerScope, root, hash12) && i < n {
      assert Collides(containers[..n][i], containerScope, root, hash12);
    }
  }

  /** The step of the agreement: what one more container adds to the two scans. */
  lemma LastAgrees(last: PsContainer, containerScope: ContainerScope, root: string, host: Host,
                   narrow: seq<SessionRecord>, wide: seq<SessionRecord>)
    requires LabelsAgree(last, host) && Inspected(last, AllRoots, containerScope, host).Ok?
    requires LiveMatches(narrow, root, host.hash12) == LiveOfRoot(wide, root)
    ensures Inspected(last, OneRoot(root), containerScope, host).Ok?
    ensures var more, all := Inspected(last, OneRoot(root), containerScope, host).value,
                             Inspected(last, AllRoots, containerScope, host).value;
            && LiveMatches(narrow + more, root, host.hash12) == LiveOfRoot(wide + all, root)
            && (CollidingRoots(narrow + more, OneRoot(root), host.hash12) != {} <==>
                CollidingRoots(narrow, OneRoot(root), host.hash12) != {}
                || Collides(last, containerScope, root, host.hash12))
  {
    hide LiveMatches, LiveOfRoot, CollidingRoots, IsLive, KindFromLabels, BuildSessionRecord;
    match PsCandidate(last, containerScope)
    case None => {
      assert narrow + [] == narrow && wide + [] == wide;
    }
    case Some(kind) => {
      var inspect := host.inspect(last.id).value;
      var record := RecordOf(last, kind, inspect, host);
      RecordLabels(last, kind, inspect, host);
      LiveOfOneMore(wide, record, root);
      if IsLive(record) {
        LiveHashIsOfRoot(last, kind, inspect, host);
      }
      if ShouldInspect(last, OneRoot(root), host.hash12) {
        LiveMatchesOfOneMore(narrow, record, root, host.hash12);
        CollidingRootsOfOneMore(narrow, record, OneRoot(root), host.hash12);
      } else {
        assert narrow + [] == narrow;
        assert !IsLiveOf(record, root);
      }
    }
  }

  lemma RecordLabels(container: PsContainer, kind: ContainerKind, inspect: Inspect, host: Host)
    ensures RecordOf(container, kind, inspect, host).labels == inspect.labels
  {
    hide DeriveStatus, EndpointReport;
  }

  lemma {:induction false} EverythingMatchesAllRoots(records: seq<SessionRecord>, hash12: Hash12)
    ensures Matches(records, AllRoots, hash12) == records && CollidingRoots(records, AllRoots, hash12) == {}
  {
    if records != [] {
      EverythingMatchesAllRoots(records[..|records| - 1], hash12);
    }
  }

  /**
    A query for one root agrees with the query for all roots. When the latter succeeds, the former
    succeeds exactly if no container carries the hash of the root under another root's name; and then
    both give the same live sessions of the root, in the same order and with the same Duplicate marks.
  */
  lemma ScopedDiscoveryAgrees(containers: seq<PsContainer>, containerScope: ContainerScope, root: string, host: Host)
    requires forall i :: 0 <= i < |containers| ==> LabelsAgree(containers[i], host)
    requires Discovered(containers, AllRoots, containerScope, host).Ok?
    ensures var scoped := Discovered(containers, OneRoot(root), containerScope, host);
            && (scoped.Ok? <==>
                !exists i :: 0 <= i < |containers| && Collides(containers[i], containerScope, root, host.hash12))
            && (scoped.Ok? ==> LiveOfRoot(scoped.value, root) ==
                               LiveOfRoot(Discovered(containers, AllRoots, containerScope, host).value, root))
            && (scoped.Err? ==> scoped.error.IdentityCollision?)
  {
    hide Marked, LiveOfRoot, Inspected, Classify, Collides;
    ScansAgree(containers, containerScope, root, host);
    var wide := Scan(containers, AllRoots, containerScope, host).value;
    var narrow := Scan(containers, OneRoot(root), containerScope, host).value;
    EverythingMatchesAllRoots(wide, host.hash12);
    LiveAfterMarking(wide, root);
    LiveAfterMarking(Matches(narrow, OneRoot(root), host.hash12), root);
  }

  /** A record that the query for the root keeps: one of its root, or one without a root that has its hash. */
  predicate InScope(record: SessionRecord, root: string, hash12: Hash12) {
    if record.Root().Some? then record.Root() == Some(root) && record.Hash() in [None, Some(hash12(root))]
    else record.Hash() == Some(hash12(root))
  }

  function Scoped(records: seq<SessionRecord>, root: string, hash12: Hash12): seq<SessionRecord> {
    if records == [] then []
    else
      var before := Scoped(records[..|records| - 1], root, hash12);
      if InScope(records[|records| - 1], root, hash12) then before + [records[|records| - 1]] else before
  }

  lemma ScopedOneMore(records: seq<SessionRecord>, record: SessionRecord, root: string, hash12: Hash12)
    ensures Scoped(records + [record], root, hash12) ==
            if InScope(record, root, hash12) then Scoped(records, root, hash12) + [record]
            else Scoped(records, root, hash12)
  {
    assert (records + [record])[..|records|] == records;
  }

  lemma MatchesOneMore(records: seq<SessionRecord>, record: SessionRecord, scope: Scope, hash12: Hash12)
    ensures Matches(records + [record], scope, hash12) ==
            if Classify(record, scope, hash12).Match? then Matches(records, scope, hash12) + [record]
            else Matches(records, scope, hash12)
  {
    assert (records + [record])[..|records|] == records;
  }

  /** Live records carry the hash of their own root. */
  predicate HashesAgree(records: seq<SessionRecord>, hash12: Hash12) {
    forall i :: 0 <= i < |records| && IsLive(records[i]) ==>
      records[i].Root().Some? && records[i].Hash() == Some(hash12(records[i].Root().value))
  }

  /** What one container adds to the two scans, filtered. */
  lemma LastIsFiltered(last: PsContainer, containerScope: ContainerScope, root: string, host: Host,
                       narrow: seq<SessionRecord>, wide: seq<SessionRecord>)
    requires LabelsAgree(last, host) && Inspected(last, AllRoots, containerScope, host).Ok?
    requires Inspected(last, OneRoot(root), containerScope, host).Ok?
    requires Matches(narrow, OneRoot(root), host.hash12) == Scoped(wide, root, host.hash12)
    requires HashesAgree(wide, host.hash12)
    ensures var more, all := Inspected(last, OneRoot(root), containerScope, host).value,
                             Inspected(last, AllRoots, containerScope, host).value;
            && Matches(narrow + more, OneRoot(root), host.hash12) == Scoped(wide + all, root, host.hash12)
            && HashesAgree(wide + all, host.hash12)
  {
    hide Matches, Scoped, IsLive, KindFromLabels, BuildSessionRecord;
    match PsCandidate(last, containerScope)
    case None => {
      assert narrow + [] == narrow && wide + [] == wide;
    }
    case Some(kind) => {
      var inspect := host.inspect(last.id).value;
      var record := RecordOf(last, kind, inspect, host);
      RecordLabels(last, kind, inspect, host);
      if IsLive(record) {
        LiveHashIsOfRoot(last, kind, inspect, host);
      }
      ScopedOneMore(wide, record, root, host.hash12);
      if ShouldInspect(last, OneRoot(root), host.hash12) {
        MatchesOneMore(narrow, record, OneRoot(root), host.hash12);
      } else {
        assert narrow + [] == narrow;
      }
    }
  }

  lemma {:induction false} ScanIsFiltered(containers: seq<PsContainer>, containerScope: ContainerScope, root: string,
                                          host: Host)
    requires forall i :: 0 <= i < |containers| ==> LabelsAgree(containers[i], host)
    requires Scan(containers, AllRoots, containerScope, host).Ok?
    requires Scan(containers, OneRoot(root), containerScope, host).Ok?
    ensures Matches(Scan(containers, OneRoot(root), containerScope, host).value, OneRoot(root), host.hash12) ==
            Scoped(Scan(containers, AllRoots, containerScope, host).value, root, host.hash12)
    ensures HashesAgree(Scan(containers, AllRoots, containerScope, host).value, host.hash12)
  {
    hide Inspected, LabelsAgree, IsLive;
    if containers != [] {
      var n := |containers| - 1;
      ScanIsFiltered(containers[..n], containerScope, root, host);
      LastIsFiltered(containers[n], containerScope, root, host,
                     Scan(containers[..n], OneRoot(root), containerScope, host).value,
                     Scan(containers[..n], AllRoots, containerScope, host).value);
    }
  }

  /** All live records of the root are in scope, so filtering keeps their number. */
  lemma {:induction false} LiveAreInScope(records: seq<SessionRecord>, root: string, hash12: Hash12)
    requires HashesAgree(records, hash12)
    ensures LiveOfRoot(Scoped(records, root, hash12), root) == LiveOfRoot(records, root)
  {
    if records != [] {
      var n := |records| - 1;
      var front, last := records[..n], records[n];
      LiveAreInScope(front, root, hash12);
      assert records == front + [last];
      assert IsLiveOf(last, root) ==> InScope(last, root, hash12);
      hide LiveOfRoot, Scoped, InScope, HashesAgree;
      LiveOfOneMore(front, last, root);
      ScopedOneMore(front, last, root, hash12);
      if InScope(last, root, hash12) {
        LiveOfOneMore(Scoped(front, root, hash12), last, root);
      }
    }
  }

  /** Marking with the sizes of all groups, then filtering, is filtering, then marking. */
  lemma {:induction false} FilterCommutesWithMarking(all: seq<SessionRecord>, part: seq<SessionRecord>, root: string,
                                                     hash12: Hash12)
    requires HashesAgree(all, hash12)
    ensures MarkedIn(Scoped(all, root, hash12), Scoped(part, root, hash12)) == Scoped(MarkedIn(all, part), root, hash12)
  {
    if part == [] {
      assert MarkedIn(all, []) == [];
      assert MarkedIn(Scoped(all, root, hash12), []) == [];
    } else {
      var n := |part| - 1;
      var front, last := part[..n], part[n];
      assert part == front + [last];
      FilterCommutesWithMarking(all, front, root, hash12);
      LiveAreInScope(all, root, hash12);
      SameMark(all, last, root, hash12);
      hide Scoped, MarkedIn, Mark, InScope, HashesAgree;
      ScopedOneMore(front, last, root, hash12);
      MarkedInOneMore(all, front, last);
      ScopedOneMore(MarkedIn(all, front), Mark(all, last), root, hash12);
      if InScope(last, root, hash12) {
        MarkedInOneMore(Scoped(all, root, hash12), Scoped(front, root, hash12), last);
      }
    }
  }

  lemma SameMark(all: seq<SessionRecord>, record: SessionRecord, root: string, hash12: Hash12)
    requires LiveOfRoot(Scoped(all, root, hash12), root) == LiveOfRoot(all, root)
    ensures InScope(Mark(all, record), root, hash12) <==> InScope(record, root, hash12)
    ensures InScope(record, root, hash12) ==> Mark(Scoped(all, root, hash12), record) == Mark(all, record)
  {
    hide LiveOfRoot, Scoped;
  }

  /**
    The query for one root is an exact filter of the query for all roots, failed records included: it
    gives the records of its root that carry no other root's hash, and those without a root that carry
    its hash, with the same marks.
  */
  lemma ScopedDiscoveryIsFilter(containers: seq<PsContainer>, containerScope: ContainerScope, root: string, host: Host)
    requires forall i :: 0 <= i < |containers| ==> LabelsAgree(containers[i], host)
    requires Discovered(containers, AllRoots, containerScope, host).Ok?
    requires Discovered(containers, OneRoot(root), containerScope, host).Ok?
    ensures Discovered(containers, OneRoot(root), containerScope, host).value ==
            Scoped(Discovered(containers, AllRoots, containerScope, host).value, root, host.hash12)
  {
    hide LiveOfRoot, Inspected, Classify, Collides, Mark, Scoped, Matches;
    var wide := Scan(containers, AllRoots, containerScope, host).value;
    ScanIsFiltered(containers, containerScope, root, host);
    EverythingMatchesAllRoots(wide, host.hash12);
    FilterCommutesWithMarking(wide, wide, root, host.hash12);
    MarkedIsMarkedIn(wide);
    MarkedIsMarkedIn(Scoped(wide, root, host.hash12));
  }

  lemma MarkedIsMarkedIn(sessions: seq<SessionRecord>)
    ensures Marked(sessions) == MarkedIn(sessions, sessions)
  {
    hide Mark;
  }

  // ---------------------------------------------------------------- a launch is found again

  lemma {:induction false} MatchIsFound(records: seq<SessionRecord>, scope: Scope, hash12: Hash12,
                                        record: SessionRecord)
    requires record in records && Classify(record, scope, hash12).Match?
    ensures record in Matches(records, scope, hash12)
  {
    var n := |records| - 1;
    assert records == records[..n] + [records[n]];
    if record in records[..n] {
      MatchIsFound(records[..n], scope, hash12, record);
    }
  }

  lemma {:induction false} ScanFinds(containers: seq<PsContainer>, scope: Scope, containerScope: ContainerScope,
                                     host: Host, container: PsContainer)
    requires container in containers && Scan(containers, scope, containerScope, host).Ok?
    requires PsCandidate(container, containerScope).Some? && ShouldInspect(container, scope, host.hash12)
    ensures host.inspect(container.id).Some?
    ensures RecordOf(container, PsCandidate(container, containerScope).value, host.inspect(container.id).value, host)
            in Scan(containers, scope, containerScope, host).value
  {
    hide RecordOf, PsCandidate, ShouldInspect;
    var n := |containers| - 1;
    assert containers == containers[..n] + [containers[n]];
    if container in containers[..n] {
      ScanFinds(containers[..n], scope, containerScope, host, container);
    }
  }

  predicate HasRecord(records: seq<SessionRecord>, id: string, root: string) {
    exists i :: 0 <= i < |records| && records[i].containerId == id && records[i].Root() == Some(root)
  }

  lemma MarkedHasRecord(records: seq<SessionRecord>, record: SessionRecord)
    requires record in records && record.Root().Some?
    ensures HasRecord(Marked(records), record.containerId, record.Root().value)
  {
    hide Mark;
    var i :| 0 <= i < |records| && records[i] == record;
    MarkKeepsIdentity(records, record);
    assert Marked(records)[i] == Mark(records, record);
  }

  /** A listed container that matches the scope is in the result, if there is one. */
  lemma MatchIsDiscovered(containers: seq<PsContainer>, scope: Scope, containerScope: ContainerScope, host: Host,
                          container: PsContainer, kind: ContainerKind, inspect: Inspect)
    requires container in containers && Discovered(containers, scope, containerScope, host).Ok?
    requires PsCandidate(container, containerScope) == Some(kind) && ShouldInspect(container, scope, host.hash12)
    requires host.inspect(container.id) == Some(inspect)
    requires var record := RecordOf(container, kind, inspect, host);
             record.Root().Some? && Classify(record, scope, host.hash12).Match?
    ensures var record := RecordOf(container, kind, inspect, host);
            HasRecord(Discovered(containers, scope, containerScope, host).value, record.containerId,
                      record.Root().value)
  {
    hide RecordOf, PsCandidate, ShouldInspect, Classify, Marked, Matches, HasRecord;
    ScanFinds(containers, scope, containerScope, host, container);
    var record := RecordOf(container, kind, inspect, host);
    var records := Scan(containers, scope, containerScope, host).value;
    MatchIsFound(records, scope, host.hash12, record);
    MarkedHasRecord(Matches(records, scope, host.hash12), record);
  }

  /** What a record takes over from the listing and from inspection. */
  lemma RecordFacts(container: PsContainer, kind: ContainerKind, inspect: Inspect, host: Host)
    ensures var record := RecordOf(container, kind, inspect, host);
            && record.containerId == container.id && record.containerKind == kind
            && record.labels == inspect.labels && record.containerRunning == inspect.running
            && record.Root() == Label(inspect.labels, LabelGitRoot)
            && record.Hash() == Label(inspect.labels, LabelGitRootHash)
            && (container.names.Some? && container.names.value != [] ==>
                  record.containerName == container.names.value[0])
            && (container.names.None? || container.names.value == [] ==> record.containerName == container.id)
  {
    hide DeriveStatus, EndpointReport;
  }

  lemma LaunchedLabelFacts(labels: Labels, mode: RunMode, runtime: RuntimeKind, workspace: Workspace,
                           contextHash: string, serverArgs: Option<string>, hash12: Hash12)
    requires !mode.Foreground? && IsResolved(workspace, hash12)
    requires Carries(labels, CreateSpecFor(mode, runtime, workspace, contextHash, [], [], [], serverArgs).labels)
    requires mode.TransientServer? ==> LabelManaged !in labels
    ensures KindFromLabels(labels) == Some(KindOf(mode))
    ensures Label(labels, LabelGitRoot) == Some(workspace.root)
    ensures Label(labels, LabelGitRootHash) == Some(hash12(workspace.root))
  {
    hide Carries, CreateSpecFor, IsResolved, LabelsAreSound, KindFromLabels;
    LaunchedLabelsAreSound(mode, runtime, workspace, contextHash, serverArgs, labels, hash12);
    SoundLabelsGiveRuntime(labels, hash12, workspace.root, workspace.target, runtime);
  }

  /**
    Every launched server of a root is found by the query that a launch makes before it goes on: as long
    as its container is listed, the query does not come back empty, whatever has become of the container.
  */
  lemma LaunchedContainerIsFound(containers: seq<PsContainer>, host: Host, container: PsContainer,
                                 mode: RunMode, runtime: RuntimeKind, workspace: Workspace, contextHash: string,
                                 serverArgs: Option<string>)
    requires container in containers && LabelsAgree(container, host)
    requires !mode.Foreground? && IsResolved(workspace, host.hash12)
    requires Carries(container.labels,
                     CreateSpecFor(mode, runtime, workspace, contextHash, [], [], [], serverArgs).labels)
    requires mode.TransientServer? ==> LabelManaged !in container.labels
    requires Discovered(containers, OneRoot(workspace.root), AgentboxOwned, host).Ok?
    ensures HasRecord(Discovered(containers, OneRoot(workspace.root), AgentboxOwned, host).value, container.id,
                      workspace.root)
  {
    hide IsResolved, Carries, CreateSpecFor, KindFromLabels, RecordOf, Marked, Matches, HasRecord, Label, Discovered;
    LaunchedLabelFacts(container.labels, mode, runtime, workspace, contextHash, serverArgs, host.hash12);
    DiscoveredMeansInspected(containers, OneRoot(workspace.root), AgentboxOwned, host, container);
    var inspect := host.inspect(container.id).value;
    RecordFacts(container, KindOf(mode), inspect, host);
    MatchIsDiscovered(containers, OneRoot(workspace.root), AgentboxOwned, host, container, KindOf(mode), inspect);
  }

  lemma DiscoveredMeansInspected(containers: seq<PsContainer>, scope: Scope, containerScope: ContainerScope,
                                 host: Host, container: PsContainer)
    requires container in containers && Discovered(containers, scope, containerScope, host).Ok?
    requires PsCandidate(container, containerScope).Some? && ShouldInspect(container, scope, host.hash12)
    ensures host.inspect(container.id).Some?
  {
    hide PsCandidate, ShouldInspect, Marked, Matches, CollidingRoots;
    ScanFinds(containers, scope, containerScope, host, container);
  }

  lemma MarkKeepsIdentity(all: seq<SessionRecord>, record: SessionRecord)
    ensures Mark(all, record).containerId == record.containerId && Mark(all, record).Root() == record.Root()
  {
    hide LiveOfRoot;
  }

  // ---------------------------------------------------------------- what a query finds

  /** The container is one that the query asks for, by what the listing says. */
  predicate IsAskedFor(container: PsContainer, scope: Scope, containerScope: ContainerScope, hash12: Hash12) {
    var labels := container.labels;
    && (IsManagedContainer(labels) || (containerScope.AgentboxOwned? && IsTransientContainer(labels)))
    && match scope
       case AllRoots => true
       case OneRoot(root) =>
         LabelGitRootHash !in labels || IsBlank(labels[LabelGitRootHash]) || labels[LabelGitRootHash] == hash12(root)
  }

  /** And it is in its scope, by what inspection says. */
  predicate IsInScope(inspect: Inspect, scope: Scope, hash12: Hash12) {
    match scope
    case AllRoots => true
    case OneRoot(root) =>
      || Label(inspect.labels, LabelGitRoot) == Some(root)
      || (Label(inspect.labels, LabelGitRoot).None? && Label(inspect.labels, LabelGitRootHash) == Some(hash12(root)))
  }

  /** This record, whatever its status, is that of a container that was asked for and is in scope. */
  predicate IsRecordOf(record: SessionRecord, container: PsContainer, scope: Scope, containerScope: ContainerScope,
                       host: Host)
  {
    && IsAskedFor(container, scope, containerScope, host.hash12)
    && host.inspect(container.id).Some? && IsInScope(host.inspect(container.id).value, scope, host.hash12)
    && var kind := if IsManagedContainer(container.labels) then Managed else Run;
       RecordOf(container, kind, host.inspect(container.id).value, host).(status := record.status) == record
  }

  lemma InspectedIff(container: PsContainer, scope: Scope, containerScope: ContainerScope, host: Host)
    requires Inspected(container, scope, containerScope, host).Ok?
    ensures var more := Inspected(container, scope, containerScope, host).value;
            var kind := if IsManagedContainer(container.labels) then Managed else Run;
            if IsAskedFor(container, scope, containerScope, host.hash12)
            then host.inspect(container.id).Some?
                 && more == [RecordOf(container, kind, host.inspect(container.id).value, host)]
            else more == []
  {
    hide RecordOf;
    KindFromLabelsIff(container.labels);
  }

  lemma ClassifyIff(container: PsContainer, kind: ContainerKind, inspect: Inspect, scope: Scope, host: Host)
    ensures Classify(RecordOf(container, kind, inspect, host), scope, host.hash12).Match? <==>
              IsInScope(inspect, scope, host.hash12)
  {
    RecordFacts(container, kind, inspect, host);
    hide RecordOf, Label;
  }

  /** The records that match are those of the containers that were asked for and are in scope. */
  lemma {:induction false} MatchesIff(containers: seq<PsContainer>, scope: Scope, containerScope: ContainerScope,
                                      host: Host, record: SessionRecord)
    requires Scan(containers, scope, containerScope, host).Ok?
    ensures var records := Matches(Scan(containers, scope, containerScope, host).value, scope, host.hash12);
            HasUpToStatus(records, record) <==> HasSource(containers, record, scope, containerScope, host)
  {
    if containers == [] {
      assert Matches([], scope, host.hash12) == [];
    } else {
      hide Matches, HasSource, HasUpToStatus, Inspected;
      var n := |containers| - 1;
      var front, last := containers[..n], containers[n];
      MatchesIff(front, scope, containerScope, host, record);
      hide Scan;
      assert front + [last] == containers;
      MatchesOfLast(front, last, scope, containerScope, host, record);
      SourceOneMore(front, last, record, scope, containerScope, host);
    }
  }

  predicate HasSource(containers: seq<PsContainer>, record: SessionRecord, scope: Scope, containerScope: ContainerScope,
                      host: Host)
  {
    exists i :: 0 <= i < |containers| && IsRecordOf(record, containers[i], scope, containerScope, host)
  }

  lemma SourceOneMore(front: seq<PsContainer>, last: PsContainer, record: SessionRecord, scope: Scope,
                      containerScope: ContainerScope, host: Host)
    ensures HasSource(front + [last], record, scope, containerScope, host) <==>
              || HasSource(front, record, scope, containerScope, host)
              || IsRecordOf(record, last, scope, containerScope, host)
  {
    hide IsRecordOf;
    var all := front + [last];
    assert all[|front|] == last;
    if i :| 0 <= i < |front| && IsRecordOf(record, front[i], scope, containerScope, host) {
      assert IsRecordOf(record, all[i], scope, containerScope, host);
    }
  }

  predicate HasUpToStatus(records: seq<SessionRecord>, record: SessionRecord) {
    exists k :: 0 <= k < |records| && IsUpToStatus(records[k], record)
  }

  predicate IsUpToStatus(found: SessionRecord, record: SessionRecord) {
    found.(status := record.status) == record
  }

  lemma HasOneMore(records: seq<SessionRecord>, more: SessionRecord, record: SessionRecord)
    ensures HasUpToStatus(records + [more], record) <==> HasUpToStatus(records, record) || IsUpToStatus(more, record)
  {
    hide IsUpToStatus;
    var all := records + [more];
    assert all[|records|] == more;
    if k :| 0 <= k < |records| && IsUpToStatus(records[k], record) {
      assert IsUpToStatus(all[k], record);
    }
  }

  lemma MatchesOfLast(front: seq<PsContainer>, last: PsContainer, scope: Scope, containerScope: ContainerScope,
                      host: Host, record: SessionRecord)
    requires Scan(front + [last], scope, containerScope, host).Ok?
    ensures Scan(front, scope, containerScope, host).Ok?
    ensures var all := Matches(Scan(front + [last], scope, containerScope, host).value, scope, host.hash12);
            var before := Matches(Scan(front, scope, containerScope, host).value, scope, host.hash12);
            HasUpToStatus(all, record) <==>
              HasUpToStatus(before, record) || IsRecordOf(record, last, scope, containerScope, host)
  {
    assert (front + [last])[..|front|] == front;
    var scanned := Scan(front, scope, containerScope, host).value;
    InspectedIff(last, scope, containerScope, host);
    hide Scan, Matches, HasUpToStatus, Inspected, IsAskedFor, IsInScope, Classify, RecordOf, IsManagedContainer;
    var kind := if IsManagedContainer(last.labels) then Managed else Run;
    if IsAskedFor(last, scope, containerScope, host.hash12) {
      var inspect := host.inspect(last.id).value;
      var more := RecordOf(last, kind, inspect, host);
      ClassifyIff(last, kind, inspect, scope, host);
      MatchesOneMore(scanned, more, scope, host.hash12);
      HasOneMore(Matches(scanned, scope, host.hash12), more, record);
    } else {
      assert scanned + [] == scanned;
    }
  }

  /**
    What a query finds, said on labels: the managed containers, and the transient ones if all of agentbox
    is asked for, that are in its scope. A managed query never gives a transient run.
  */
  lemma DiscoveredIff(containers: seq<PsContainer>, scope: Scope, containerScope: ContainerScope, host: Host,
                      record: SessionRecord)
    requires Discovered(containers, scope, containerScope, host).Ok?
    ensures HasUpToStatus(Discovered(containers, scope, containerScope, host).value, record) <==>
            HasSource(containers, record, scope, containerScope, host)
  {
    hide HasSource, Matches, Scan, CollidingRoots, Marked, HasUpToStatus;
    MatchesIff(containers, scope, containerScope, host, record);
    MarkingKeepsAllButStatus(Matches(Scan(containers, scope, containerScope, host).value, scope, host.hash12), record);
  }

  /** A container of another root that carries the hash of this one. */
  predicate IsCollision(container: PsContainer, scope: Scope, containerScope: ContainerScope, host: Host) {
    && scope.OneRoot? && IsAskedFor(container, scope, containerScope, host.hash12)
    && host.inspect(container.id).Some?
    && var labels := host.inspect(container.id).value.labels;
       && Label(labels, LabelGitRoot).Some? && Label(labels, LabelGitRoot).value != scope.root
       && Label(labels, LabelGitRootHash) == Some(host.hash12(scope.root))
  }

  predicate IsUninspectable(container: PsContainer, scope: Scope, containerScope: ContainerScope, host: Host) {
    IsAskedFor(container, scope, containerScope, host.hash12) && host.inspect(container.id).None?
  }

  lemma InspectionFailsIff(container: PsContainer, scope: Scope, containerScope: ContainerScope, host: Host)
    ensures Inspected(container, scope, containerScope, host).Err? <==>
              IsUninspectable(container, scope, containerScope, host)
    ensures Inspected(container, scope, containerScope, host).Err? ==>
              Inspected(container, scope, containerScope, host) == Err(InspectFailed(container.id))
  {
    hide RecordOf;
    KindFromLabelsIff(container.labels);
  }

  /** A scan ends with the first container that was asked for and cannot be inspected. */
  lemma {:induction false} ScanFailsIff(containers: seq<PsContainer>, scope: Scope, containerScope: ContainerScope,
                                        host: Host)
    ensures Scan(containers, scope, containerScope, host).Ok? <==>
              forall i :: 0 <= i < |containers| ==> !IsUninspectable(containers[i], scope, containerScope, host)
    ensures Scan(containers, scope, containerScope, host).Err? ==>
              exists i :: && 0 <= i < |containers|
                          && Scan(containers, scope, containerScope, host) == Err(InspectFailed(containers[i].id))
                          && IsUninspectable(containers[i], scope, containerScope, host)
                          && forall j :: 0 <= j < i ==> !IsUninspectable(containers[j], scope, containerScope, host)
  {
    if containers != [] {
      var n := |containers| - 1;
      var front := containers[..n];
      ScanFailsIff(front, scope, containerScope, host);
      InspectionFailsIff(containers[n], scope, containerScope, host);
      hide Inspected, IsUninspectable;
      assert forall i :: 0 <= i < n ==> front[i] == containers[i];
    }
  }

  lemma CollidesIff(container: PsContainer, kind: ContainerKind, inspect: Inspect, scope: Scope, host: Host)
    ensures Classify(RecordOf(container, kind, inspect, host), scope, host.hash12).Collision? <==>
              && scope.OneRoot?
              && Label(inspect.labels, LabelGitRoot).Some? && Label(inspect.labels, LabelGitRoot).value != scope.root
              && Label(inspect.labels, LabelGitRootHash) == Some(host.hash12(scope.root))
  {
    RecordFacts(container, kind, inspect, host);
    hide RecordOf, Label;
  }

  predicate HasCollision(records: seq<SessionRecord>, scope: Scope, hash12: Hash12) {
    exists k :: 0 <= k < |records| && Classify(records[k], scope, hash12).Collision?
  }

  lemma HasCollisionOneMore(records: seq<SessionRecord>, more: SessionRecord, scope: Scope, hash12: Hash12)
    ensures HasCollision(records + [more], scope, hash12) <==>
              HasCollision(records, scope, hash12) || Classify(more, scope, hash12).Collision?
  {
    hide Classify;
    var all := records + [more];
    assert all[|records|] == more;
    if k :| 0 <= k < |records| && Classify(records[k], scope, hash12).Collision? {
      assert Classify(all[k], scope, hash12).Collision?;
    }
  }

  lemma CollisionOfLast(front: seq<PsContainer>, last: PsContainer, scope: Scope, containerScope: ContainerScope,
                        host: Host)
    requires Scan(front + [last], scope, containerScope, host).Ok?
    ensures Scan(front, scope, containerScope, host).Ok?
    ensures HasCollision(Scan(front + [last], scope, containerScope, host).value, scope, host.hash12) <==>
              || HasCollision(Scan(front, scope, containerScope, host).value, scope, host.hash12)
              || IsCollision(last, scope, containerScope, host)
  {
    assert (front + [last])[..|front|] == front;
    var scanned := Scan(front, scope, containerScope, host).value;
    InspectedIff(last, scope, containerScope, host);
    hide Scan, HasCollision, Inspected, IsAskedFor, Classify, RecordOf, IsManagedContainer;
    var kind := if IsManagedContainer(last.labels) then Managed else Run;
    if IsAskedFor(last, scope, containerScope, host.hash12) {
      var inspect := host.inspect(last.id).value;
      CollidesIff(last, kind, inspect, scope, host);
      HasCollisionOneMore(scanned, RecordOf(last, kind, inspect, host), scope, host.hash12);
    } else {
      assert scanned + [] == scanned;
    }
  }

  lemma {:induction false} CollisionsIff(containers: seq<PsContainer>, scope: Scope, containerScope: ContainerScope,
                                         host: Host)
    requires Scan(containers, scope, containerScope, host).Ok?
    ensures HasCollision(Scan(containers, scope, containerScope, host).value, scope, host.hash12) <==>
              exists i :: 0 <= i < |containers| && IsCollision(containers[i], scope, containerScope, host)
  {
    hide HasCollision, IsCollision;
    if containers == [] {
      NoCollision(scope, host.hash12);
    } else {
      var n := |containers| - 1;
      var front, last := containers[..n], containers[n];
      assert front + [last] == containers;
      CollisionOfLast(front, last, scope, containerScope, host);
      hide Scan;
      CollisionsIff(front, scope, containerScope, host);
      assert forall i :: 0 <= i < n ==> front[i] == containers[i];
    }
  }

  lemma NoCollision(scope: Scope, hash12: Hash12)
    ensures !HasCollision([], scope, hash12)
  {
  }

  /**
    When a query succeeds, said on listing and inspection: every container that is asked for can be
    inspected, and none that has another root carries the hash of the root that is asked for.
  */
  lemma DiscoverySucceedsIff(containers: seq<PsContainer>, scope: Scope, containerScope: ContainerScope, host: Host)
    ensures Discovered(containers, scope, containerScope, host).Ok? <==>
              && (forall i :: 0 <= i < |containers| ==> !IsUninspectable(containers[i], scope, containerScope, host))
              && (forall i :: 0 <= i < |containers| ==> !IsCollision(containers[i], scope, containerScope, host))
  {
    ScanFailsIff(containers, scope, containerScope, host);
    if Scan(containers, scope, containerScope, host).Ok? {
      var records := Scan(containers, scope, containerScope, host).value;
      CollisionsIff(containers, scope, containerScope, host);
      NoneCollides(records, scope, host.hash12);
      hide Scan, Matches, Marked, CollidingRoots, HasCollision, IsUninspectable;
    }
  }

  lemma NoneCollides(records: seq<SessionRecord>, scope: Scope, hash12: Hash12)
    ensures CollidingRoots(records, scope, hash12) == {} <==> !HasCollision(records, scope, hash12)
  {
    hide Classify;
    if k :| 0 <= k < |records| && Classify(records[k], scope, hash12).Collision? {
      assert Classify(records[k], scope, hash12).root in CollidingRoots(records, scope, hash12);
    }
  }

  lemma MarkingKeepsAllButStatus(records: seq<SessionRecord>, record: SessionRecord)
    ensures HasUpToStatus(Marked(records), record) <==> HasUpToStatus(records, record)
  {
    forall k: nat | k < |records|
      ensures IsUpToStatus(Marked(records)[k], record) <==> IsUpToStatus(records[k], record)
    {
      MarkingIsExact(records, k);
    }
    hide Mark, IsUpToStatus;
    assert |Marked(records)| == |records|;
    if k :| 0 <= k < |records| && IsUpToStatus(records[k], record) {
      assert IsUpToStatus(Marked(records)[k], record);
    }
  }
}
