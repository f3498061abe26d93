/**
  The operations of the lock file store, each written as the system calls it makes. Between two
  calls any schedule of other processes runs. `LockProtocol` proves what holds over all of them.
*/
module LockFiles {
  import opened Wrappers
  import opened LockProtocol

  datatype GuardOutcome = Granted | Changed | MetadataFailed | StillWaiting

  datatype Removal = Removed | Missing | Locked

  datatype ProbeStatus = Available(digest: Digest) | InUse(digest: Digest)

  /** The scheduled steps of processes other than `p` that are possible when their turn comes. */
  function Taken(s: State, p: Pid, schedule: seq<Action>): seq<Action>
    decreases |schedule|
  {
    if schedule == [] then []
    else if schedule[0].p != p && Enabled(s, schedule[0]) then
      [schedule[0]] + Taken(Apply(s, schedule[0]), p, schedule[1..])
    else Taken(s, p, schedule[1..])
  }

  lemma TakeOne(s: State, p: Pid, schedule: seq<Action>)
    requires schedule != []
    ensures Taken(s, p, schedule) ==
            if schedule[0].p != p && Enabled(s, schedule[0]) then
              [schedule[0]] + Taken(Apply(s, schedule[0]), p, schedule[1..])
            else Taken(s, p, schedule[1..])
  {
    hide Enabled, Apply;
  }

  /** The run after others have done what was scheduled. */
  function Meanwhile(run: seq<Action>, p: Pid, schedule: seq<Action>): seq<Action> {
    match Exec(INITIAL, run) case Some(s) => run + Taken(s, p, schedule) case None => run
  }

  predicate IsLockedAfter(run: seq<Action>, i: Inode) {
    match Exec(INITIAL, run) case Some(s) => i in s.owners case None => false
  }

  predicate IsLinkedAfter(run: seq<Action>, d: Digest) {
    match Exec(INITIAL, run) case Some(s) => d in s.paths case None => false
  }

  /** Waiting for the lock of an inode, until it is free or the schedule ends. */
  function WaitRun(run: seq<Action>, p: Pid, i: Inode, waiting: seq<Action>): seq<Action>
    decreases |waiting|
  {
    if waiting == [] || !IsLockedAfter(run, i) then run
    else WaitRun(Meanwhile(run, p, [waiting[0]]), p, i, waiting[1..])
  }

  /** The lock directory, shared by all processes, and the steps taken in it so far. */
  class LockDirectory {
    var state: State
    ghost var run: seq<Action>

    constructor ()
      ensures Valid() && state == INITIAL && run == []
    {
      state := INITIAL;
      run := [];
    }

    /** The state is the one that the recorded run leads to. */
    ghost predicate Valid()
      reads this
    {
      Exec(INITIAL, run) == Some(state)
    }

    method Step(a: Action)
      requires Valid() && Enabled(state, a)
      modifies this
      ensures Valid() && run == old(run) + [a] && state == Apply(old(state), a)
    {
      state := Apply(state, a);
      run := run + [a];
      assert run[..|run| - 1] == old(run);
    }

    /** The scheduled steps of processes other than `p` happen, as far as they are possible. */
    method Others(p: Pid, schedule: seq<Action>)
      requires Valid()
      modifies this
      ensures Valid() && old(run) <= run
      ensures p in state.procs <==> p in old(state.procs)
      ensures p in state.procs ==> state.procs[p] == old(state.procs[p])
      ensures schedule == [] ==> state == old(state)
      ensures run == Meanwhile(old(run), p, schedule)
    {
      hide Exec;
      assert schedule[0..] == schedule;
      for k := 0 to |schedule|
        invariant Valid() && old(run) <= run
        invariant p in state.procs <==> p in old(state.procs)
        invariant p in state.procs ==> state.procs[p] == old(state.procs[p])
        invariant k == 0 ==> state == old(state)
        invariant run + Taken(state, p, schedule[k..]) == old(run) + Taken(old(state), p, schedule)
      {
        TakeOne(state, p, schedule[k..]);
        assert schedule[k..][1..] == schedule[k + 1..];
        if schedule[k].p != p && Enabled(state, schedule[k]) {
          Step(schedule[k]);
        }
      }
    }

    /** `lock_digest`: opens the lock file, creating it when it is missing. */
    method LockDigest(p: Pid, d: Digest, newInode: Inode)
      requires Valid() && p !in state.procs && (d in state.paths || IsFree(state, newInode))
      modifies this
      ensures Valid() && run == old(run) + [OpenLock(p, d, newInode)]
      ensures d in state.paths && state.procs == old(state.procs)[p := Handle(d, state.paths[d])]
      ensures d in old(state.paths) ==> state.paths == old(state.paths)
      ensures state.owners == old(state.owners)
    {
      Step(OpenLock(p, d, newInode));
    }

    /** `WorkspaceLock::guard`: waits for the lock while `waiting` runs, then re-checks the path. */
    method Guard(p: Pid, waiting: seq<Action>, meanwhile: seq<Action>, metadataFails: bool)
      returns (r: GuardOutcome)
      requires Valid() && p in state.procs && state.procs[p].Handle?
      modifies this
      ensures Valid() && old(run) <= run && p in state.procs
      // its own steps, and those of others in between
      ensures var i := old(state.procs[p].inode);
              var waited := WaitRun(old(run), p, i, waiting);
              if IsLockedAfter(waited, i) then r == StillWaiting && run == waited
              else run == Meanwhile(waited + [Lock(p)], p, meanwhile)
                          + [if metadataFails then FailCheck(p) else CheckPath(p)]
      ensures var d, i := old(state.procs[p].digest), old(state.procs[p].inode);
              match r
              case Granted => state.procs[p] == Pc.Guard(d, i) && ResolvesTo(state, d, i)
                              && i in state.owners && state.owners[i] == p
              case Changed => HandleIsDead(state, p, d, i) && state.procs[p] == Handle(d, i)
              case MetadataFailed => state.procs[p] == Handle(d, i) && metadataFails
              case StillWaiting => state.procs[p] == Handle(d, i) && i in state.owners
    {
      hide Exec, Meanwhile, LinksAgree;
      var handle := state.procs[p];
      var k := 0;
      assert waiting[0..] == waiting;
      while handle.inode in state.owners && k < |waiting|
        invariant Valid() && old(run) <= run
        invariant p in state.procs && state.procs[p] == handle
        invariant k <= |waiting|
        invariant WaitRun(run, p, handle.inode, waiting[k..]) == WaitRun(old(run), p, handle.inode, waiting)
      {
        assert waiting[k..][1..] == waiting[k + 1..];
        Others(p, [waiting[k]]);
        k := k + 1;
      }
      assert k == |waiting| ==> waiting[k..] == [];
      if handle.inode in state.owners {
        return StillWaiting;
      }
      Step(Lock(p));
      Others(p, meanwhile);
      ConsistentRun(run);
      if metadataFails {
        Step(FailCheck(p));
        return MetadataFailed;
      }
      Step(CheckPath(p));
      if state.procs[p].Guard? {
        return Granted;
      }
      return Changed;
    }

    /**
      `cleanup_lock_file_status`: tries the lock of the file that it has opened without waiting. `seen`
      is the state when it tries, after whatever others have done; the probe leaves no trace in it.
    */
    method CleanupLockFileStatus(p: Pid, d: Digest, meanwhile: seq<Action>)
      returns (r: Option<ProbeStatus>, ghost seen: State)
      requires Valid() && p !in state.procs
      modifies this
      ensures Valid() && old(run) <= run && p !in state.procs
      ensures r == if d !in old(state.paths) then None
                   else if old(state.paths[d]) in seen.owners then Some(InUse(d)) else Some(Available(d))
      // its own steps, and those of others in between
      ensures if d !in old(state.paths) then run == Meanwhile(old(run), p, meanwhile)
              else
                var looked := Meanwhile(old(run) + [OpenProbe(p, d)], p, meanwhile);
                && Exec(INITIAL, looked) == Some(seen)
                && run == looked + if r == Some(InUse(d)) then [TryProbe(p)] else [TryProbe(p), Close(p)]
      ensures state == seen.(procs := Without(seen.procs, p))
      ensures d in old(state.paths) ==> p in seen.procs && seen.procs[p] == ProbeOpen(d, old(state.paths[d]))
      ensures meanwhile == [] ==> state == old(state) && seen.owners == old(state.owners)
    {
      hide Exec, LocksAgree, LinksAgree;
      if d !in state.paths {
        Others(p, meanwhile);
        assert Without(state.procs, p) == state.procs;
        return None, state;
      }
      Step(OpenProbe(p, d));
      Others(p, meanwhile);
      seen := state;
      assert meanwhile == [] ==> Without(seen.procs, p) == old(state.procs);
      ConsistentRun(run);
      var pc := state.procs[p];
      if pc.inode in state.owners {
        Step(TryProbe(p));
        return Some(InUse(d)), seen;
      }
      TriedProbeCloses(seen, p, d, pc.inode);
      Step(TryProbe(p));
      Step(Close(p));
      return Some(Available(d)), seen;
    }

    /** `remove_cleanup_lock_file`: the path is not re-checked once the lock is granted. */
    method RemoveCleanupLockFile(p: Pid, d: Digest, meanwhile: seq<Action>, beforeUnlink: seq<Action>)
      returns (r: Removal)
      requires Valid() && p !in state.procs
      modifies this
      ensures Valid() && old(run) <= run && p !in state.procs
      // its own steps, and those of others in between
      ensures if d !in old(state.paths) then run == old(run)
              else
                var i := old(state.paths[d]);
                var looked := Meanwhile(old(run) + [OpenRemoval(p, d)], p, meanwhile);
                if IsLockedAfter(looked, i) then r == Locked && run == looked + [TryRemoval(p)]
                else
                  var locked := Meanwhile(looked + [TryRemoval(p)], p, beforeUnlink);
                  && run == locked + [Unlink(p), Close(p)]
                  && r == if IsLinkedAfter(locked, d) then Removed else Missing
      ensures r == Removed ==> d in old(state.paths) && d !in state.paths
      ensures d !in old(state.paths) ==> r == Missing
      ensures meanwhile == [] && beforeUnlink == [] && d in old(state.paths) ==>
                if old(state.paths[d]) in old(state.owners) then r == Locked && state == old(state)
                else r == Removed && state == old(state).(paths := Without(old(state.paths), d))
      ensures r == Removed && RemovalsNeverOverlap(run) ==> GuardsResolve(state) && GuardsExclusive(state)
    {
      hide Exec, LocksAgree, LinksAgree, GuardsResolve, GuardsExclusive, RemovalsNeverOverlap, Meanwhile;
      if d !in state.paths {
        return Missing;
      }
      ConsistentRun(run);
      RemovalRemovesOnlyThePath(state, p, d);
      Step(OpenRemoval(p, d));
      Others(p, meanwhile);
      if state.procs[p].inode in state.owners {
        Step(TryRemoval(p));
        return Locked;
      }
      Step(TryRemoval(p));
      var found := UnlinkLocked(p, d, beforeUnlink);
      if found {
        if RemovalsNeverOverlap(run) {
          LockSafety(run);
        }
        return Removed;
      }
      return Missing;
    }

    /** The removal has its lock: it unlinks whatever the path names by now, and is done. */
    method UnlinkLocked(p: Pid, d: Digest, beforeUnlink: seq<Action>) returns (found: bool)
      requires Valid() && p in state.procs && state.procs[p].RemovalLocked? && state.procs[p].digest == d
      modifies this
      ensures Valid() && old(run) <= run && p !in state.procs && d !in state.paths
      ensures var locked := Meanwhile(old(run), p, beforeUnlink);
              run == locked + [Unlink(p), Close(p)] && found == IsLinkedAfter(locked, d)
      ensures beforeUnlink == [] ==> found == (d in old(state.paths))
      ensures beforeUnlink == [] ==> state == Apply(Apply(old(state), Unlink(p)), Close(p))
    {
      hide Exec, Meanwhile;
      Others(p, beforeUnlink);
      found := d in state.paths;
      Step(Unlink(p));
      Step(Close(p));
    }
  }
}
