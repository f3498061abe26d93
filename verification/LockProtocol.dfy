/**
  The workspace lock files as a transition system. Any number of processes open, lock, re-check,
  probe and unlink them, in any interleaving, and may die at any point.

  A process runs one operation at a time: acquiring a `WorkspaceLock` and its guard, probing a lock
  file for `clean`, or removing one. Each step is one system call. Inode numbers are reused as soon
  as neither a path nor an open descriptor refers to the inode.
*/
module LockProtocol {
  import opened Wrappers

  type Pid = nat
  type Digest = string
  type Inode = nat

  datatype Pc =
    | Handle(digest: Digest, inode: Inode)          // the lock file is open, no lock is held
    | Acquired(digest: Digest, inode: Inode)        // the lock is granted, the path not yet re-checked
    | Guard(digest: Digest, inode: Inode)           // a `WorkspaceLockGuard` exists
    | ProbeOpen(digest: Digest, inode: Inode)
    | ProbeLocked(digest: Digest, inode: Inode)
    | RemovalOpen(digest: Digest, inode: Inode)
    | RemovalLocked(digest: Digest, inode: Inode)
    | Unlinked(digest: Digest, inode: Inode)        // the removal has unlinked, and still holds its lock
  {
    predicate HoldsLock() {
      Acquired? || Guard? || ProbeLocked? || RemovalLocked? || Unlinked?
    }

    /** From opening the file up to unlinking the path. */
    predicate Removing() {
      RemovalOpen? || RemovalLocked?
    }
  }

  datatype State = State(
    paths: map<Digest, Inode>,    // the inode each lock path resolves to
    owners: map<Inode, Pid>,      // which process holds the exclusive lock of an inode
    procs: map<Pid, Pc>)          // the operation each process is in

  const INITIAL := State(map[], map[], map[])

  datatype Action =
    | OpenLock(p: Pid, d: Digest, newInode: Inode)
    | Lock(p: Pid)
    | CheckPath(p: Pid)
    | FailCheck(p: Pid)
    | ReleaseGuard(p: Pid)
    | OpenProbe(p: Pid, d: Digest)
    | TryProbe(p: Pid)
    | OpenRemoval(p: Pid, d: Digest)
    | TryRemoval(p: Pid)
    | Unlink(p: Pid)
    | Close(p: Pid)

  /** Neither linked nor open anywhere: a new file may get this inode. */
  predicate IsFree(s: State, i: Inode) {
    && (forall d :: d in s.paths ==> s.paths[d] != i)
    && (forall p :: p in s.procs ==> s.procs[p].inode != i)
  }

  predicate ResolvesTo(s: State, d: Digest, i: Inode) {
    d in s.paths && s.paths[d] == i
  }

  predicate Enabled(s: State, a: Action) {
    match a
    case OpenLock(p, d, newInode) => p !in s.procs && (d in s.paths || IsFree(s, newInode))
    case Lock(p) => p in s.procs && s.procs[p].Handle? && s.procs[p].inode !in s.owners
    case CheckPath(p) => p in s.procs && s.procs[p].Acquired?
    case FailCheck(p) => p in s.procs && s.procs[p].Acquired?
    case ReleaseGuard(p) => p in s.procs && s.procs[p].Guard?
    case OpenProbe(p, d) => p !in s.procs && d in s.paths
    case TryProbe(p) => p in s.procs && s.procs[p].ProbeOpen?
    case OpenRemoval(p, d) => p !in s.procs && d in s.paths
    case TryRemoval(p) => p in s.procs && s.procs[p].RemovalOpen?
    case Unlink(p) => p in s.procs && s.procs[p].RemovalLocked?
    case Close(p) => p in s.procs
  }

  function Unlocked(s: State, p: Pid): map<Inode, Pid> {
    map i | i in s.owners && s.owners[i] != p :: s.owners[i]
  }

  function Without<K, V>(m: map<K, V>, k: K): map<K, V> {
    m - {k}
  }

  function Apply(s: State, a: Action): State
    requires Enabled(s, a)
  {
    match a
    // open with O_CREAT: the existing file, or a new one
    case OpenLock(p, d, newInode) =>
      var i := if d in s.paths then s.paths[d] else newInode;
      s.(paths := s.paths[d := i], procs := s.procs[p := Handle(d, i)])
    // the blocking exclusive lock is granted
    case Lock(p) =>
      var pc := s.procs[p];
      s.(owners := s.owners[pc.inode := p], procs := s.procs[p := Acquired(pc.digest, pc.inode)])
    // the path still names the locked inode: a guard; otherwise the lock is dropped again
    case CheckPath(p) =>
      var pc := s.procs[p];
      if ResolvesTo(s, pc.digest, pc.inode) then s.(procs := s.procs[p := Guard(pc.digest, pc.inode)])
      else s.(owners := Unlocked(s, p), procs := s.procs[p := Handle(pc.digest, pc.inode)])
    // reading the metadata failed: the lock is dropped again
    case FailCheck(p) =>
      s.(owners := Unlocked(s, p), procs := s.procs[p := Handle(s.procs[p].digest, s.procs[p].inode)])
    case ReleaseGuard(p) =>
      s.(owners := Unlocked(s, p), procs := s.procs[p := Handle(s.procs[p].digest, s.procs[p].inode)])
    case OpenProbe(p, d) =>
      s.(procs := s.procs[p := ProbeOpen(d, s.paths[d])])
    // a lock held elsewhere ends the probe with `Locked`
    case TryProbe(p) =>
      var pc := s.procs[p];
      if pc.inode in s.owners then s.(procs := Without(s.procs, p))
      else s.(owners := s.owners[pc.inode := p], procs := s.procs[p := ProbeLocked(pc.digest, pc.inode)])
    case OpenRemoval(p, d) =>
      s.(procs := s.procs[p := RemovalOpen(d, s.paths[d])])
    case TryRemoval(p) =>
      var pc := s.procs[p];
      if pc.inode in s.owners then s.(procs := Without(s.procs, p))
      else s.(owners := s.owners[pc.inode := p], procs := s.procs[p := RemovalLocked(pc.digest, pc.inode)])
    // unlinks whatever the path names by now, or finds it missing
    case Unlink(p) =>
      var pc := s.procs[p];
      s.(paths := Without(s.paths, pc.digest), procs := s.procs[p := Unlinked(pc.digest, pc.inode)])
    // the operation ends or the process dies: its descriptor closes, which drops its lock
    case Close(p) =>
      s.(owners := Unlocked(s, p), procs := Without(s.procs, p))
  }

  /** The state after these steps, if each was possible when its turn came. */
  function Exec(s: State, run: seq<Action>): Option<State> {
    if run == [] then Some(s)
    else match Exec(s, run[..|run| - 1])
      case None => None
      case Some(before) =>
        if Enabled(before, run[|run| - 1]) then Some(Apply(before, run[|run| - 1])) else None
  }

  // ---------------------------------------------------------------- what holds in every run

  /** The lock table records exactly the processes that hold a lock. */
  ghost predicate LocksAgree(s: State) {
    && (forall p :: p in s.procs && s.procs[p].HoldsLock() ==>
          s.procs[p].inode in s.owners && s.owners[s.procs[p].inode] == p)
    && (forall i :: i in s.owners ==>
          s.owners[i] in s.procs && s.procs[s.owners[i]].HoldsLock() && s.procs[s.owners[i]].inode == i)
  }

  /** An inode is linked at one path only, and an open inode at no other path than it was opened from. */
  ghost predicate LinksAgree(s: State) {
    && (forall d, e :: d in s.paths && e in s.paths && s.paths[d] == s.paths[e] ==> d == e)
    && (forall p, d :: p in s.procs && d in s.paths && s.paths[d] == s.procs[p].inode ==> d == s.procs[p].digest)
  }

  ghost predicate Consistent(s: State) {
    LocksAgree(s) && LinksAgree(s)
  }

  /** While a guard is held, the path resolves to the guarded inode. */
  ghost predicate GuardsResolve(s: State) {
    forall p :: p in s.procs && s.procs[p].Guard? ==> ResolvesTo(s, s.procs[p].digest, s.procs[p].inode)
  }

  /** At most one process holds a guard per digest. */
  ghost predicate GuardsExclusive(s: State) {
    forall p, q | p in s.procs && q in s.procs && s.procs[p].Guard? && s.procs[q].Guard? ::
      s.procs[p].digest == s.procs[q].digest ==> p == q
  }

  lemma LocksStep(s: State, a: Action)
    requires LocksAgree(s) && Enabled(s, a)
    ensures LocksAgree(Apply(s, a))
  {
    hide IsFree;
  }

  lemma LinksStep(s: State, a: Action)
    requires LinksAgree(s) && Enabled(s, a)
    ensures LinksAgree(Apply(s, a))
  {
    hide Unlocked;
  }

  lemma ConsistentStep(s: State, a: Action)
    requires Consistent(s) && Enabled(s, a)
    ensures Consistent(Apply(s, a))
  {
    hide LocksAgree, LinksAgree, Enabled, Apply;
    LocksStep(s, a);
    LinksStep(s, a);
  }

  lemma {:induction false} ConsistentRun(run: seq<Action>)
    requires Exec(INITIAL, run).Some?
    ensures Consistent(Exec(INITIAL, run).value)
  {
    if run != [] {
      ConsistentRun(run[..|run| - 1]);
      ConsistentStep(Exec(INITIAL, run[..|run| - 1]).value, run[|run| - 1]);
    }
  }

  /** Guards that resolve are exclusive: the path names one inode, and an inode has one owner. */
  lemma ResolvingGuardsAreExclusive(s: State)
    requires Consistent(s) && GuardsResolve(s)
    ensures GuardsExclusive(s)
  {
  }

  // ---------------------------------------------------------------- safety

  /** No two removals of one path are between opening the file and unlinking it. */
  ghost predicate RemovalsApart(s: State) {
    forall p, q | p in s.procs && q in s.procs && s.procs[p].Removing() && s.procs[q].Removing() ::
      s.procs[p].digest == s.procs[q].digest ==> p == q
  }

  /** A removal under way still holds the file that the path names. */
  ghost predicate RemovalsResolve(s: State) {
    forall p :: p in s.procs && s.procs[p].Removing() ==> ResolvesTo(s, s.procs[p].digest, s.procs[p].inode)
  }

  /** At no point of the run are two removals of one path under way. */
  ghost predicate RemovalsNeverOverlap(run: seq<Action>) {
    forall k :: 0 <= k < |run| ==> Exec(INITIAL, run[..k]).Some? && RemovalsApart(Exec(INITIAL, run[..k]).value)
  }

  lemma SafeStep(s: State, a: Action)
    requires Consistent(s) && GuardsResolve(s) && RemovalsResolve(s) && RemovalsApart(s)
    requires Enabled(s, a)
    ensures GuardsResolve(Apply(s, a)) && RemovalsResolve(Apply(s, a))
  {
    GuardsStep(s, a);
    RemovalsStep(s, a);
    hide Consistent, GuardsResolve, RemovalsResolve, RemovalsApart, Apply;
  }

  lemma GuardsStep(s: State, a: Action)
    requires Consistent(s) && GuardsResolve(s) && RemovalsResolve(s) && Enabled(s, a)
    ensures GuardsResolve(Apply(s, a))
  {
    hide IsFree;
  }

  lemma RemovalsStep(s: State, a: Action)
    requires RemovalsResolve(s) && RemovalsApart(s) && Enabled(s, a)
    ensures RemovalsResolve(Apply(s, a))
  {
    hide IsFree, Unlocked;
  }

  lemma {:induction false} SafeRun(run: seq<Action>)
    requires Exec(INITIAL, run).Some?
    requires RemovalsNeverOverlap(run)
    ensures var s := Exec(INITIAL, run).value; GuardsResolve(s) && RemovalsResolve(s)
  {
    if run != [] {
      var before := run[..|run| - 1];
      assert forall k :: 0 <= k < |before| ==> before[..k] == run[..k];
      SafeRun(before);
      ConsistentRun(before);
      SafeStep(Exec(INITIAL, before).value, run[|run| - 1]);
    }
  }

  /**
    Lock safety. In every interleaving in which two removals of one path never overlap, at most one
    process holds a guard per digest, and its path keeps resolving to the guarded inode.
  */
  lemma LockSafety(run: seq<Action>)
    requires Exec(INITIAL, run).Some?
    requires RemovalsNeverOverlap(run)
    ensures GuardsResolve(Exec(INITIAL, run).value) && GuardsExclusive(Exec(INITIAL, run).value)
  {
    SafeRun(run);
    ConsistentRun(run);
    ResolvingGuardsAreExclusive(Exec(INITIAL, run).value);
  }

  /** In such a run a removal unlinks the very inode that it has locked. */
  lemma RemovalUnlinksItsOwnFile(run: seq<Action>, p: Pid)
    requires Exec(INITIAL, run).Some?
    requires RemovalsNeverOverlap(run)
    requires p in Exec(INITIAL, run).value.procs && Exec(INITIAL, run).value.procs[p].RemovalLocked?
    ensures var s := Exec(INITIAL, run).value;
            && ResolvesTo(s, s.procs[p].digest, s.procs[p].inode)
            && s.procs[p].inode in s.owners && s.owners[s.procs[p].inode] == p
  {
    SafeRun(run);
    ConsistentRun(run);
  }

  // ---------------------------------------------------------------- one operation on its own

  /**
    A guard that nothing interrupts is granted on a file that the path still names; while it is there
    nobody else gets the lock, and its release restores the state. So does a failing check.
  */
  lemma GuardIsReleased(s: State, p: Pid, d: Digest, i: Inode)
    requires Consistent(s) && p in s.procs && s.procs[p] == Handle(d, i)
    requires i !in s.owners && ResolvesTo(s, d, i)
    ensures Enabled(s, Lock(p)) && Apply(Apply(s, Lock(p)), FailCheck(p)) == s
    ensures var guarded := Apply(Apply(s, Lock(p)), CheckPath(p));
            && guarded.procs == s.procs[p := Guard(d, i)] && guarded.paths == s.paths
            && (forall q :: q in guarded.procs && guarded.procs[q].inode == i ==> !Enabled(guarded, Lock(q)))
            && Enabled(guarded, ReleaseGuard(p)) && Apply(guarded, ReleaseGuard(p)) == s
  {
    var locked := Apply(s, Lock(p));
    var guarded := Apply(locked, CheckPath(p));
    assert forall j :: j in s.owners ==> s.owners[j] != p;
    assert Unlocked(locked, p) == s.owners && Unlocked(guarded, p) == s.owners;
    assert guarded.procs[p := Handle(d, i)] == s.procs;
    assert locked.procs[p := Handle(d, i)] == s.procs;
  }

  /** A probe that nothing interrupts leaves the paths, the locks and the processes as they were. */
  lemma ProbeLeavesNoTrace(s: State, p: Pid, d: Digest)
    requires Consistent(s) && p !in s.procs && d in s.paths
    ensures var tried := Apply(Apply(s, OpenProbe(p, d)), TryProbe(p));
            if s.paths[d] in s.owners then tried == s
            else
              && tried.procs[p].ProbeLocked? && s.paths[d] in tried.owners && tried.owners[s.paths[d]] == p
              && Enabled(tried, Close(p)) && Apply(tried, Close(p)) == s
  {
    var tried := Apply(Apply(s, OpenProbe(p, d)), TryProbe(p));
    assert Without(s.procs[p := ProbeOpen(d, s.paths[d])], p) == s.procs;
    if s.paths[d] !in s.owners {
      var closed := Apply(tried, Close(p));
      assert closed.procs == s.procs;
      assert forall i :: i in s.owners ==> s.owners[i] != p;
      assert closed.owners == s.owners;
    }
  }

  /** In any state, a probe that gets its lock and closes leaves everything but itself as it was. */
  lemma TriedProbeCloses(s: State, p: Pid, d: Digest, i: Inode)
    requires Consistent(s) && p in s.procs && s.procs[p] == ProbeOpen(d, i) && i !in s.owners
    ensures Apply(Apply(s, TryProbe(p)), Close(p)) == s.(procs := Without(s.procs, p))
  {
    var closed := Apply(Apply(s, TryProbe(p)), Close(p));
    assert closed.procs == Without(s.procs, p);
    assert forall j :: j in s.owners ==> s.owners[j] != p;
    assert closed.owners == s.owners;
  }

  /** A removal that nothing interrupts removes the path of an unlocked file, and nothing else. */
  lemma RemovalRemovesOnlyThePath(s: State, p: Pid, d: Digest)
    requires Consistent(s) && p !in s.procs && d in s.paths
    ensures var tried := Apply(Apply(s, OpenRemoval(p, d)), TryRemoval(p));
            if s.paths[d] in s.owners then tried == s
            else
              && Enabled(tried, Unlink(p))
              && Apply(Apply(tried, Unlink(p)), Close(p)) == s.(paths := Without(s.paths, d))
  {
    var i := s.paths[d];
    var tried := Apply(Apply(s, OpenRemoval(p, d)), TryRemoval(p));
    assert Without(s.procs[p := RemovalOpen(d, i)], p) == s.procs;
    if i !in s.owners {
      assert tried == s.(owners := s.owners[i := p], procs := s.procs[p := RemovalLocked(d, i)]);
      UnlinkAndClose(s, p, d, i);
    }
  }

  lemma UnlinkAndClose(s: State, p: Pid, d: Digest, i: Inode)
    requires Consistent(s) && p !in s.procs && i !in s.owners
    ensures var tried := s.(owners := s.owners[i := p], procs := s.procs[p := RemovalLocked(d, i)]);
            Apply(Apply(tried, Unlink(p)), Close(p)) == s.(paths := Without(s.paths, d))
  {
    var tried := s.(owners := s.owners[i := p], procs := s.procs[p := RemovalLocked(d, i)]);
    var closed := Apply(Apply(tried, Unlink(p)), Close(p));
    assert closed.procs == s.procs;
    assert forall j :: j in s.owners ==> s.owners[j] != p;
    assert closed.owners == s.owners;
  }

  // ---------------------------------------------------------------- what the missing re-check costs

  /** A removal about to unlink a path that names another, guarded, inode than the one it locked. */
  predicate UnlinksGuardedPath(s: State, a: Action)
    requires Enabled(s, a)
  {
    && a.Unlink?
    && var pc := s.procs[a.p];
       && pc.digest in s.paths && s.paths[pc.digest] != pc.inode
       && s.paths[pc.digest] in s.owners
       && s.owners[s.paths[pc.digest]] in s.procs
       && s.procs[s.owners[s.paths[pc.digest]]].Guard?
  }

  /** A step breaks a guard if and only if it is such an unlink. */
  lemma GuardsBreakOnlyByStaleUnlink(s: State, a: Action)
    requires Consistent(s) && GuardsResolve(s) && Enabled(s, a)
    ensures GuardsResolve(Apply(s, a)) <==> !UnlinksGuardedPath(s, a)
  {
    var t := Apply(s, a);
    if a.Unlink? {
      var pc := s.procs[a.p];
      if UnlinksGuardedPath(s, a) {
        var q := s.owners[s.paths[pc.digest]];
        assert t.procs[q] == s.procs[q] && s.procs[q].digest == pc.digest;
      } else {
        forall q | q in t.procs && t.procs[q].Guard?
          ensures ResolvesTo(t, t.procs[q].digest, t.procs[q].inode)
        {
          assert t.procs[q] == s.procs[q];
        }
      }
    }
  }

  /** After the first `k` steps of the run every guard resolves. */
  ghost predicate ResolvesAt(run: seq<Action>, k: nat)
    requires k <= |run|
  {
    match Exec(INITIAL, run[..k]) case Some(s) => GuardsResolve(s) case None => true
  }

  predicate StaleUnlinkAt(run: seq<Action>, k: nat)
    requires k < |run|
  {
    match Exec(INITIAL, run[..k]) case Some(s) => Enabled(s, run[k]) && UnlinksGuardedPath(s, run[k]) case None => false
  }

  ghost predicate AlwaysResolves(run: seq<Action>) {
    forall k: nat :: k <= |run| ==> ResolvesAt(run, k)
  }

  predicate NeverUnlinksGuardedPath(run: seq<Action>) {
    forall k: nat :: k < |run| ==> !StaleUnlinkAt(run, k)
  }

  lemma ResolvesOneMore(front: seq<Action>, a: Action)
    ensures AlwaysResolves(front + [a]) <==> AlwaysResolves(front) && ResolvesAt(front + [a], |front| + 1)
    ensures NeverUnlinksGuardedPath(front + [a]) <==>
              NeverUnlinksGuardedPath(front) && !StaleUnlinkAt(front + [a], |front|)
  {
    var run := front + [a];
    hide Exec, GuardsResolve, UnlinksGuardedPath, Enabled;
    forall k: nat | k <= |front| ensures ResolvesAt(run, k) == ResolvesAt(front, k) {
      assert run[..k] == front[..k];
    }
    forall k: nat | k < |front| ensures StaleUnlinkAt(run, k) == StaleUnlinkAt(front, k) {
      assert run[..k] == front[..k] && run[k] == front[k];
    }
  }

  lemma LastStepResolves(front: seq<Action>, a: Action)
    requires Exec(INITIAL, front + [a]).Some? && Exec(INITIAL, front).Some?
    requires Consistent(Exec(INITIAL, front).value) && GuardsResolve(Exec(INITIAL, front).value)
    ensures ResolvesAt(front + [a], |front| + 1) <==> !StaleUnlinkAt(front + [a], |front|)
  {
    var run := front + [a];
    assert run[..|front|] == front && run[..|front| + 1] == run;
    GuardsBreakOnlyByStaleUnlink(Exec(INITIAL, front).value, a);
    hide Consistent, GuardsResolve, UnlinksGuardedPath, Apply, Enabled;
  }

  /**
    Over whole runs: every guard resolves at every point exactly if no step is such an unlink; and then
    guards are exclusive.
  */
  lemma {:induction false} GuardsResolveIffNoStaleUnlink(run: seq<Action>)
    requires Exec(INITIAL, run).Some?
    ensures AlwaysResolves(run) <==> NeverUnlinksGuardedPath(run)
    ensures AlwaysResolves(run) ==> GuardsResolve(Exec(INITIAL, run).value) && GuardsExclusive(Exec(INITIAL, run).value)
  {
    assert run[..|run|] == run;
    assert AlwaysResolves(run) ==> ResolvesAt(run, |run|);
    ConsistentRun(run);
    if AlwaysResolves(run) {
      ResolvingGuardsAreExclusive(Exec(INITIAL, run).value);
    }
    if run == [] {
      assert Exec(INITIAL, run[..0]) == Some(INITIAL);
    } else {
      var front, a := run[..|run| - 1], run[|run| - 1];
      assert run == front + [a];
      ConsistentRun(front);
      hide Consistent, GuardsResolve, AlwaysResolves, NeverUnlinksGuardedPath, ResolvesAt, StaleUnlinkAt, Apply,
           Enabled, GuardsExclusive;
      GuardsResolveIffNoStaleUnlink(front);
      ResolvesOneMore(front, a);
      if AlwaysResolves(front) {
        LastStepResolves(front, a);
      }
    }
  }

  /** The run `before` leads to `s`, and one more step leads to `t`. */
  lemma ExtendRun(before: seq<Action>, s: State, a: Action, t: State) returns (run: seq<Action>)
    requires Exec(INITIAL, before) == Some(s) && Enabled(s, a) && Apply(s, a) == t
    ensures run == before + [a] && Exec(INITIAL, run) == Some(t)
  {
    run := before + [a];
    assert run[..|before|] == before;
  }

  lemma EmptyRun()
    ensures Exec(INITIAL, []) == Some(INITIAL)
  {
  }

  lemma ExtendApart(before: seq<Action>, s: State, a: Action, t: State) returns (run: seq<Action>)
    requires Exec(INITIAL, before) == Some(s) && Enabled(s, a) && Apply(s, a) == t
    requires RemovalsNeverOverlap(before) && RemovalsApart(s)
    ensures run == before + [a] && Exec(INITIAL, run) == Some(t) && RemovalsNeverOverlap(run)
  {
    run := ExtendRun(before, s, a, t);
    hide Exec, RemovalsApart;
    forall k | 0 <= k < |run| ensures Exec(INITIAL, run[..k]).Some? && RemovalsApart(Exec(INITIAL, run[..k]).value) {
      assert run[..k] == before[..k];
      assert k == |before| ==> before[..k] == before;
    }
  }

  /** A new lock file, whose creator has closed it again. */
  lemma NewLockFile(before: seq<Action>, paths: map<Digest, Inode>, d: Digest, i: Inode) returns (run: seq<Action>)
    requires Exec(INITIAL, before) == Some(State(paths, map[], map[])) && RemovalsNeverOverlap(before)
    requires d !in paths && forall e :: e in paths ==> paths[e] != i
    ensures Exec(INITIAL, run) == Some(State(paths[d := i], map[], map[])) && RemovalsNeverOverlap(run)
  {
    hide Exec, RemovalsNeverOverlap;
    var s0, s1 := State(paths, map[], map[]), State(paths[d := i], map[], map[0 := Handle(d, i)]);
    run := ExtendApart(before, s0, OpenLock(0, d, i), s1);
    run := ExtendApart(run, s1, Close(0), State(paths[d := i], map[], map[]));
  }

  /** Two removals have opened the same file. */
  lemma TwoRemovalsOpen() returns (run: seq<Action>)
    ensures Exec(INITIAL, run) ==
            Some(State(map["d" := 1], map[], map[0 := RemovalOpen("d", 1), 1 := RemovalOpen("d", 1)]))
  {
    EmptyRun();
    assert RemovalsNeverOverlap([]);
    hide Exec, RemovalsNeverOverlap, IsFree;
    run := NewLockFile([], map[], "d", 1);
    var s2 := State(map["d" := 1], map[], map[]);
    var s3 := State(map["d" := 1], map[], map[0 := RemovalOpen("d", 1)]);
    run := ExtendRun(run, s2, OpenRemoval(0, "d"), s3);
    var s4 := State(map["d" := 1], map[], map[0 := RemovalOpen("d", 1), 1 := RemovalOpen("d", 1)]);
    run := ExtendRun(run, s3, OpenRemoval(1, "d"), s4);
  }

  /** The removals 0 and 1 open the same file; 1 locks it, unlinks it and is done. */
  lemma OneOfTwoRemovalsFinishes() returns (run: seq<Action>)
    ensures Exec(INITIAL, run) == Some(State(map[], map[], map[0 := RemovalOpen("d", 1)]))
  {
    hide Exec;
    run := TwoRemovalsOpen();
    var s4 := State(map["d" := 1], map[], map[0 := RemovalOpen("d", 1), 1 := RemovalOpen("d", 1)]);
    var s5 := State(map["d" := 1], map[1 := 1], map[0 := RemovalOpen("d", 1), 1 := RemovalLocked("d", 1)]);
    run := ExtendRun(run, s4, TryRemoval(1), s5);
    var s6 := State(map[], map[1 := 1], map[0 := RemovalOpen("d", 1), 1 := Unlinked("d", 1)]);
    run := ExtendRun(run, s5, Unlink(1), s6);
    var s7 := State(map[], map[], map[0 := RemovalOpen("d", 1)]);
    run := ExtendRun(run, s6, Close(1), s7);
  }

  /** Process 2 guards the new file of the path; the late removal 0 locks the dead inode and unlinks the path. */
  lemma LateRemovalUnlinksGuardedPath() returns (run: seq<Action>)
    ensures Exec(INITIAL, run) ==
            Some(State(map[], map[2 := 2, 1 := 0], map[0 := Unlinked("d", 1), 2 := Guard("d", 2)]))
  {
    hide Exec;
    run := OneOfTwoRemovalsFinishes();
    var s7 := State(map[], map[], map[0 := RemovalOpen("d", 1)]);
    var s8 := State(map["d" := 2], map[], map[0 := RemovalOpen("d", 1), 2 := Handle("d", 2)]);
    run := ExtendRun(run, s7, OpenLock(2, "d", 2), s8);
    var s9 := State(map["d" := 2], map[2 := 2], map[0 := RemovalOpen("d", 1), 2 := Acquired("d", 2)]);
    run := ExtendRun(run, s8, Lock(2), s9);
    var s10 := State(map["d" := 2], map[2 := 2], map[0 := RemovalOpen("d", 1), 2 := Guard("d", 2)]);
    run := ExtendRun(run, s9, CheckPath(2), s10);
    var s11 := State(map["d" := 2], map[2 := 2, 1 := 0], map[0 := RemovalLocked("d", 1), 2 := Guard("d", 2)]);
    run := ExtendRun(run, s10, TryRemoval(0), s11);
    var s12 := State(map[], map[2 := 2, 1 := 0], map[0 := Unlinked("d", 1), 2 := Guard("d", 2)]);
    run := ExtendRun(run, s11, Unlink(0), s12);
  }

  /** Overlapping removals can give two processes, 2 and 3, a guard for one digest. */
  lemma OverlappingRemovalsBreakSafety() returns (run: seq<Action>)
    ensures Exec(INITIAL, run) ==
            Some(State(map["d" := 3], map[2 := 2, 1 := 0, 3 := 3],
                       map[0 := Unlinked("d", 1), 2 := Guard("d", 2), 3 := Guard("d", 3)]))
    ensures !GuardsExclusive(Exec(INITIAL, run).value)
  {
    hide Exec;
    run := LateRemovalUnlinksGuardedPath();
    var s12 := State(map[], map[2 := 2, 1 := 0], map[0 := Unlinked("d", 1), 2 := Guard("d", 2)]);
    var s13 := State(map["d" := 3], map[2 := 2, 1 := 0],
                     map[0 := Unlinked("d", 1), 2 := Guard("d", 2), 3 := Handle("d", 3)]);
    run := ExtendRun(run, s12, OpenLock(3, "d", 3), s13);
    var s14 := State(map["d" := 3], map[2 := 2, 1 := 0, 3 := 3],
                     map[0 := Unlinked("d", 1), 2 := Guard("d", 2), 3 := Acquired("d", 3)]);
    run := ExtendRun(run, s13, Lock(3), s14);
    var s15 := State(map["d" := 3], map[2 := 2, 1 := 0, 3 := 3],
                     map[0 := Unlinked("d", 1), 2 := Guard("d", 2), 3 := Guard("d", 3)]);
    run := ExtendRun(run, s14, CheckPath(3), s15);
    assert s15.procs[2].Guard? && s15.procs[3].Guard?;
  }

  // ---------------------------------------------------------------- a run that is safe

  lemma TwoLockFiles() returns (run: seq<Action>)
    ensures RemovalsNeverOverlap(run)
    ensures Exec(INITIAL, run) == Some(State(map["a" := 1, "b" := 2], map[], map[]))
  {
    EmptyRun();
    assert RemovalsNeverOverlap([]);
    hide Exec, RemovalsNeverOverlap;
    run := NewLockFile([], map[], "a", 1);
    run := NewLockFile(run, map["a" := 1], "b", 2);
  }

  /** Process 3 guards a file of its own. */
  lemma GuardOfNewFile() returns (run: seq<Action>)
    ensures RemovalsNeverOverlap(run)
    ensures Exec(INITIAL, run) ==
            Some(State(map["a" := 1, "b" := 2, "c" := 3], map[3 := 3], map[3 := Guard("c", 3)]))
  {
    hide Exec, RemovalsNeverOverlap;
    run := TwoLockFiles();
    var paths := map["a" := 1, "b" := 2, "c" := 3];
    var s0 := State(paths, map[], map[3 := Handle("c", 3)]);
    run := ExtendApart(run, State(map["a" := 1, "b" := 2], map[], map[]), OpenLock(3, "c", 3), s0);
    var s1 := State(paths, map[3 := 3], map[3 := Acquired("c", 3)]);
    run := ExtendApart(run, s0, Lock(3), s1);
    run := ExtendApart(run, s1, CheckPath(3), State(paths, map[3 := 3], map[3 := Guard("c", 3)]));
  }

  lemma FirstRemovalOpens() returns (run: seq<Action>)
    ensures RemovalsNeverOverlap(run)
    ensures Exec(INITIAL, run) ==
            Some(State(map["a" := 1, "b" := 2, "c" := 3], map[3 := 3],
                       map[3 := Guard("c", 3), 1 := RemovalOpen("a", 1)]))
  {
    hide Exec, RemovalsNeverOverlap;
    run := GuardOfNewFile();
    var paths := map["a" := 1, "b" := 2, "c" := 3];
    var s2 := State(paths, map[3 := 3], map[3 := Guard("c", 3)]);
    var s3 := State(paths, map[3 := 3], map[3 := Guard("c", 3), 1 := RemovalOpen("a", 1)]);
    run := ExtendApart(run, s2, OpenRemoval(1, "a"), s3);
  }

  /** Removals of different files may be under way at once, beside a guard: nothing of this breaks the condition. */
  lemma RemovalsBesideGuardAreSafe() returns (run: seq<Action>)
    ensures RemovalsNeverOverlap(run)
    ensures Exec(INITIAL, run) ==
            Some(State(map["a" := 1, "b" := 2, "c" := 3], map[3 := 3],
                       map[3 := Guard("c", 3), 1 := RemovalOpen("a", 1), 2 := RemovalOpen("b", 2)]))
    ensures RemovalsApart(Exec(INITIAL, run).value)
  {
    hide Exec, RemovalsNeverOverlap, IsFree;
    run := FirstRemovalOpens();
    var paths := map["a" := 1, "b" := 2, "c" := 3];
    var s3 := State(paths, map[3 := 3], map[3 := Guard("c", 3), 1 := RemovalOpen("a", 1)]);
    var s4 := State(paths, map[3 := 3], map[3 := Guard("c", 3), 1 := RemovalOpen("a", 1), 2 := RemovalOpen("b", 2)]);
    run := ExtendApart(run, s3, OpenRemoval(2, "b"), s4);
  }

  // ---------------------------------------------------------------- a lost handle stays lost

  /** The process holds a `WorkspaceLock`, not a guard, whose file is gone from its path. */
  predicate HandleIsDead(s: State, p: Pid, d: Digest, i: Inode) {
    && p in s.procs && (s.procs[p] == Handle(d, i) || s.procs[p] == Acquired(d, i))
    && !ResolvesTo(s, d, i)
  }

  lemma DeadHandleStep(s: State, a: Action, p: Pid, d: Digest, i: Inode)
    requires Consistent(s) && Enabled(s, a) && HandleIsDead(s, p, d, i) && a != Close(p)
    ensures HandleIsDead(Apply(s, a), p, d, i)
  {
  }

  /**
    Once a handle has lost its file, no later step of any process lets its `guard` succeed. The
    open descriptor keeps the inode from being reused, so comparing inodes is sound.
  */
  lemma {:induction false} DeadHandleNeverGuards(s: State, run: seq<Action>, p: Pid, d: Digest, i: Inode)
    requires Consistent(s) && Exec(s, run).Some? && HandleIsDead(s, p, d, i)
    requires Close(p) !in run
    ensures Consistent(Exec(s, run).value) && HandleIsDead(Exec(s, run).value, p, d, i)
  {
    if run != [] {
      var before := run[..|run| - 1];
      DeadHandleNeverGuards(s, before, p, d, i);
      ConsistentStep(Exec(s, before).value, run[|run| - 1]);
      DeadHandleStep(Exec(s, before).value, run[|run| - 1], p, d, i);
    }
  }

  /** A failed path check leaves the handle dead: retrying on the same handle is hopeless. */
  lemma FailedGuardIsFinal(s: State, p: Pid, run: seq<Action>)
    requires Consistent(s) && Enabled(s, CheckPath(p)) && !Apply(s, CheckPath(p)).procs[p].Guard?
    requires Exec(Apply(s, CheckPath(p)), run).Some? && Close(p) !in run
    ensures p in Exec(Apply(s, CheckPath(p)), run).value.procs
    ensures !Exec(Apply(s, CheckPath(p)), run).value.procs[p].Guard?
  {
    ConsistentStep(s, CheckPath(p));
    DeadHandleNeverGuards(Apply(s, CheckPath(p)), run, p, s.procs[p].digest, s.procs[p].inode);
  }
}
