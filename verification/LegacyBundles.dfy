/** Publication of the legacy Bundle files (publishLegacyBundles in src/bundle-pipeline.ts):
    candidates are written into a staging directory, the live files are moved aside, the
    candidates are moved in, and a failure moves everything back in reverse order.
    An operation that fails is taken to have had no effect, and the final removal of the staging
    directory is taken to succeed.  Targets may repeat; the last one listed wins. */
module LegacyBundles {

  type Contents = string

  /** A file of the build directory, or one of the two kinds of name inside the staging directory. */
  datatype Path = Live(name: string) | Candidate(index: nat) | Backup(index: nat)

  datatype Node = Regular(contents: Contents) | Special
  type Disk = map<Path, Node>

  datatype BundleFile = BundleFile(target: string, contents: Contents)
  datatype State = State(target: string, moved: bool, published: bool)

  datatype Outcome = Published | Restored | RecoveryIncomplete(failed: set<nat>)
  datatype MoveResult = Moved | Missing | Refused

  // ---------- the vocabulary of the specification ----------

  ghost predicate Same(before: Disk, after: Disk, p: Path) {
    (p in before <==> p in after) && (p in before ==> after[p] == before[p])
  }

  ghost predicate SameLive(before: Disk, after: Disk) {
    forall t: string {:trigger Same(before, after, Live(t))} :: Same(before, after, Live(t))
  }

  ghost predicate NoStaging(disk: Disk) {
    forall p :: p in disk ==> p.Live?
  }

  ghost predicate Targets(files: seq<BundleFile>, t: string) {
    exists k :: 0 <= k < |files| && files[k].target == t
  }

  /** The disk a caller asks for. */
  ghost function WithBundles(disk: Disk, files: seq<BundleFile>): Disk {
    if files == [] then disk
    else
      var last := files[|files| - 1];
      WithBundles(disk, files[..|files| - 1])[Live(last.target) := Regular(last.contents)]
  }

  ghost predicate OthersUntouched(before: Disk, after: Disk, files: seq<BundleFile>) {
    forall t: string {:trigger Same(before, after, Live(t))} :: !Targets(files, t) ==> Same(before, after, Live(t))
  }

  function Relocated(disk: Disk, source: Path, destination: Path): Disk
    requires source in disk
  {
    (disk - {source})[destination := disk[source]]
  }

  // ---------- what the flags say about the disk ----------

  ghost predicate Moves(states: seq<State>, j: nat, t: string) {
    j < |states| && states[j].target == t && states[j].moved
  }

  /** Some state for this target holds the original in its backup. */
  ghost predicate GroupMoved(states: seq<State>, t: string) {
    exists j: nat :: Moves(states, j, t)
  }

  ghost predicate Publishes(states: seq<State>, j: nat, t: string, limit: nat, failed: set<nat>) {
    j < |states| && states[j].target == t && states[j].published && !states[j].moved && (j < limit || j in failed)
  }

  /** Some state for this target still has to take its published candidate away. */
  ghost predicate GroupPublished(states: seq<State>, t: string, limit: nat, failed: set<nat>) {
    exists j: nat :: Publishes(states, j, t, limit, failed)
  }

  /** The original of a state that moved it, still in the staging directory. */
  ghost predicate Held(before: Disk, disk: Disk, t: string, j: nat) {
    Live(t) in before && Backup(j) in disk && disk[Backup(j)] == before[Live(t)]
  }

  /** The link between flags and disk in a recovery that has handled every index from limit up.
      With limit |states| it holds throughout the two publication loops. */
  ghost predicate Recoverable(before: Disk, disk: Disk, states: seq<State>, limit: nat, failed: set<nat>) {
    // Only the first state of a target can have moved an original.
    && (forall j: nat, k: nat, t: string :: Moves(states, k, t) && j < k ==> states[j].target != t)
    && (forall j: nat, t: string :: Moves(states, j, t) && (j < limit || j in failed) ==> Held(before, disk, t, j))
    && (forall j: nat, t: string :: Moves(states, j, t) && !(j < limit || j in failed) ==> Same(before, disk, Live(t)))
    && (forall t: string {:trigger GroupMoved(states, t)} {:trigger Same(before, disk, Live(t))} ::
          || GroupMoved(states, t)
          || Same(before, disk, Live(t))
          || (Live(t) !in before && GroupPublished(states, t, limit, failed)))
  }

  ghost predicate StatesFor(states: seq<State>, files: seq<BundleFile>) {
    |states| == |files| && (forall k :: 0 <= k < |states| ==> states[k].target == files[k].target)
  }

  // ---------- the steps of the loops, as facts about disks and flags ----------

  lemma MovedAside(before: Disk, disk: Disk, states: seq<State>, i: nat)
    requires i < |states| && !states[i].moved && Live(states[i].target) in disk
    requires Recoverable(before, disk, states, |states|, {})
    requires forall j: nat :: j < |states| ==> !states[j].published && (i <= j ==> !states[j].moved)
    requires forall j: nat :: j < i ==> Live(states[j].target) !in disk
    ensures Recoverable(before, Relocated(disk, Live(states[i].target), Backup(i)), states[i := states[i].(moved := true)], |states|, {})
  {
    var disk', states' := Relocated(disk, Live(states[i].target), Backup(i)), states[i := states[i].(moved := true)];
    assert forall j: nat, t :: Moves(states', j, t) <==> Moves(states, j, t) || (j == i && t == states[i].target);
    assert forall j: nat, t :: !Publishes(states, j, t, |states|, {});
    forall t: string
      ensures GroupMoved(states', t) || Same(before, disk', Live(t))
    {
      if GroupMoved(states, t) {
        var j: nat :| Moves(states, j, t);
        assert Moves(states', j, t);
      } else if t == states[i].target {
        assert Moves(states', i, t);
      } else {
        assert Same(before, disk, Live(t));
      }
    }
    assert Held(before, disk', states[i].target, i) by {
      assert !GroupMoved(states, states[i].target);
      assert Same(before, disk, Live(states[i].target));
    }
  }

  lemma MovedIn(before: Disk, disk: Disk, states: seq<State>, i: nat)
    requires i < |states| && Candidate(i) in disk
    requires Recoverable(before, disk, states, |states|, {})
    requires GroupMoved(states, states[i].target) || Live(states[i].target) !in before
    ensures Recoverable(before, Relocated(disk, Candidate(i), Live(states[i].target)), states[i := states[i].(published := true)], |states|, {})
  {
    var disk', states' := Relocated(disk, Candidate(i), Live(states[i].target)), states[i := states[i].(published := true)];
    assert forall j: nat, t :: Moves(states', j, t) <==> Moves(states, j, t);
    forall t: string
      ensures GroupMoved(states', t) || Same(before, disk', Live(t)) || (Live(t) !in before && GroupPublished(states', t, |states|, {}))
    {
      if GroupMoved(states, t) {
        var j: nat :| Moves(states, j, t);
        assert Moves(states', j, t);
      } else if t == states[i].target {
        assert !Moves(states, i, t);
        assert Publishes(states', i, t, |states|, {});
      } else if GroupPublished(states, t, |states|, {}) {
        var j: nat :| Publishes(states, j, t, |states|, {});
        assert Publishes(states', j, t, |states|, {});
      } else {
        assert Same(before, disk, Live(t));
      }
    }
  }

  /** A reported index, or one with nothing to undo, leaves the disk alone. */
  lemma LeftAlone(before: Disk, disk: Disk, states: seq<State>, i: nat, failed: set<nat>, failed': set<nat>)
    requires i < |states| && Recoverable(before, disk, states, i + 1, failed)
    requires failed' == failed + {i} || (failed' == failed && !states[i].moved && !states[i].published)
    ensures Recoverable(before, disk, states, i, failed')
  {
    forall t: string, j: nat | Publishes(states, j, t, i + 1, failed) ensures Publishes(states, j, t, i, failed') {
    }
    forall t: string | !GroupMoved(states, t) && !Same(before, disk, Live(t)) ensures GroupPublished(states, t, i, failed') {
      var j: nat :| Publishes(states, j, t, i + 1, failed);
      assert Publishes(states, j, t, i, failed');
    }
  }

  lemma MovedBack(before: Disk, disk: Disk, states: seq<State>, i: nat, failed: set<nat>)
    requires i < |states| && states[i].moved && Backup(i) in disk && i !in failed
    requires Recoverable(before, disk, states, i + 1, failed)
    ensures Recoverable(before, Relocated(disk, Backup(i), Live(states[i].target)), states, i, failed)
  {
    var t0 := states[i].target;
    var disk' := Relocated(disk, Backup(i), Live(t0));
    assert Moves(states, i, t0) && Held(before, disk, t0, i);
    forall j: nat, t | Moves(states, j, t) && (j < i || j in failed) ensures Held(before, disk', t, j) {
      assert Held(before, disk, t, j);
    }
    forall t: string
      ensures GroupMoved(states, t) || Same(before, disk', Live(t)) || (Live(t) !in before && GroupPublished(states, t, i, failed))
    {
      if !GroupMoved(states, t) && !Same(before, disk, Live(t)) {
        var j: nat :| Publishes(states, j, t, i + 1, failed);
        assert Publishes(states, j, t, i, failed);
      }
    }
  }

  lemma TakenAway(before: Disk, disk: Disk, states: seq<State>, i: nat, failed: set<nat>)
    requires i < |states| && !states[i].moved && states[i].published && i !in failed
    requires Recoverable(before, disk, states, i + 1, failed)
    requires GroupMoved(states, states[i].target) || Live(states[i].target) !in before
    ensures Recoverable(before, disk - {Live(states[i].target)}, states, i, failed)
  {
    var t0 := states[i].target;
    var disk' := disk - {Live(t0)};
    forall t: string
      ensures GroupMoved(states, t) || Same(before, disk', Live(t)) || (Live(t) !in before && GroupPublished(states, t, i, failed))
    {
      if !GroupMoved(states, t) && t != t0 && !Same(before, disk, Live(t)) {
        var j: nat :| Publishes(states, j, t, i + 1, failed);
        assert Publishes(states, j, t, i, failed);
      }
    }
  }

  // ---------- what the last step of a publication adds up to ----------

  ghost predicate LastFor(files: seq<BundleFile>, k: nat, limit: nat) {
    k < limit <= |files| && (forall l: nat :: k < l < limit ==> files[l].target != files[k].target)
  }

  /** Among the first limit files, the last one listed for a target is the one in place. */
  ghost predicate LastInPlace(disk: Disk, files: seq<BundleFile>, limit: nat) {
    forall k: nat {:trigger LastFor(files, k, limit)} :: LastFor(files, k, limit) ==>
      Live(files[k].target) in disk && disk[Live(files[k].target)] == Regular(files[k].contents)
  }

  lemma {:induction false} WithBundlesAt(disk: Disk, files: seq<BundleFile>, p: Path)
    ensures (p.Live? && Targets(files, p.name)) || Same(disk, WithBundles(disk, files), p)
  {
    if files != [] {
      var init := files[..|files| - 1];
      WithBundlesAt(disk, init, p);
      if p.Live? && Targets(init, p.name) {
        var k :| 0 <= k < |init| && init[k].target == p.name;
        assert files[k].target == p.name;
      } else if p == Live(files[|files| - 1].target) {
        assert Targets(files, p.name);
      }
    }
  }

  lemma {:induction false} WithBundlesLastInPlace(disk: Disk, files: seq<BundleFile>)
    ensures LastInPlace(WithBundles(disk, files), files, |files|)
  {
    if files != [] {
      var init := files[..|files| - 1];
      WithBundlesLastInPlace(disk, init);
      forall k: nat | LastFor(files, k, |files|)
        ensures Live(files[k].target) in WithBundles(disk, files)
        ensures WithBundles(disk, files)[Live(files[k].target)] == Regular(files[k].contents)
      {
        if k < |init| {
          assert LastFor(init, k, |init|);
        }
      }
    }
  }

  lemma {:induction false} LastIndex(files: seq<BundleFile>, k: nat) returns (last: nat)
    requires k < |files|
    ensures LastFor(files, last, |files|) && files[last].target == files[k].target
    decreases |files| - k
  {
    if l: nat :| k < l < |files| && files[l].target == files[k].target {
      last := LastIndex(files, l);
    } else {
      last := k;
    }
  }

  lemma SameEverywhere(a: Disk, b: Disk)
    requires forall p: Path :: Same(a, b, p)
    ensures a == b
  {
    forall p: Path ensures p in a <==> p in b {
      assert Same(a, b, p);
    }
    forall p: Path | p in a ensures a[p] == b[p] {
      assert Same(a, b, p);
    }
  }

  lemma SameLiveTransitive(a: Disk, b: Disk, c: Disk)
    requires SameLive(a, b) && SameLive(b, c)
    ensures SameLive(a, c)
  {
    forall t: string ensures Same(a, c, Live(t)) {
      assert Same(a, b, Live(t)) && Same(b, c, Live(t));
    }
  }

  lemma SameLiveFiles(a: Disk, b: Disk)
    requires NoStaging(a) && NoStaging(b) && SameLive(a, b)
    ensures a == b
  {
    forall p: Path ensures Same(a, b, p) {
      if p.Live? { assert Same(a, b, Live(p.name)); }
    }
    SameEverywhere(a, b);
  }

  /** A disk that agrees with the request at every name is the requested disk. */
  lemma PublishedDisk(before: Disk, placed: Disk, disk: Disk, files: seq<BundleFile>)
    requires NoStaging(before) && NoStaging(disk) && SameLive(placed, disk)
    requires OthersUntouched(before, placed, files) && LastInPlace(placed, files, |files|)
    ensures disk == WithBundles(before, files)
  {
    WithBundlesLastInPlace(before, files);
    forall p: Path ensures Same(disk, WithBundles(before, files), p) {
      WithBundlesAt(before, files, p);
      if p.Live? {
        if Targets(files, p.name) {
          var k :| 0 <= k < |files| && files[k].target == p.name;
          var last := LastIndex(files, k);
          assert LastFor(files, last, |files|) && Same(placed, disk, Live(p.name));
        } else {
          assert Same(before, placed, Live(p.name)) && Same(placed, disk, Live(p.name));
        }
      }
    }
    SameEverywhere(disk, WithBundles(before, files));
  }

  ghost predicate CandidatesFrom(disk: Disk, files: seq<BundleFile>, i: nat) {
    forall k: nat :: i <= k < |files| ==> Candidate(k) in disk && disk[Candidate(k)] == Regular(files[k].contents)
  }

  ghost predicate AllMovedOrAbsent(before: Disk, states: seq<State>) {
    forall k: nat :: k < |states| ==> GroupMoved(states, states[k].target) || Live(states[k].target) !in before
  }

  ghost predicate PublishedKnown(before: Disk, states: seq<State>) {
    forall k: nat :: k < |states| && states[k].published ==> GroupMoved(states, states[k].target) || Live(states[k].target) !in before
  }

  lemma MovedInPlaces(disk: Disk, files: seq<BundleFile>, i: nat)
    requires i < |files| && CandidatesFrom(disk, files, i) && LastInPlace(disk, files, i)
    ensures LastInPlace(Relocated(disk, Candidate(i), Live(files[i].target)), files, i + 1)
    ensures CandidatesFrom(Relocated(disk, Candidate(i), Live(files[i].target)), files, i + 1)
  {
    var disk' := Relocated(disk, Candidate(i), Live(files[i].target));
    forall k: nat | LastFor(files, k, i + 1)
      ensures Live(files[k].target) in disk' && disk'[Live(files[k].target)] == Regular(files[k].contents)
    {
      if k < i {
        assert LastFor(files, k, i);
      }
    }
  }

  lemma StatesCount(states: seq<State>, files: seq<BundleFile>)
    requires StatesFor(states, files)
    ensures |states| == |files|
  {
  }

  lemma NothingInPlace(disk: Disk, files: seq<BundleFile>)
    ensures LastInPlace(disk, files, 0)
  {
  }

  lemma StateMatches(states: seq<State>, files: seq<BundleFile>, i: nat)
    requires StatesFor(states, files) && i < |files|
    ensures i < |states| && states[i].target == files[i].target
    ensures StatesFor(states[i := states[i].(published := true)], files)
  {
  }

  lemma NextCandidate(before: Disk, disk: Disk, states: seq<State>, files: seq<BundleFile>, i: nat)
    requires CandidatesFrom(disk, files, i) && AllMovedOrAbsent(before, states) && i < |files| == |states|
    ensures Candidate(i) in disk && (GroupMoved(states, states[i].target) || Live(states[i].target) !in before)
  {
  }

  lemma OthersMovedIn(before: Disk, disk: Disk, files: seq<BundleFile>, i: nat)
    requires OthersUntouched(before, disk, files) && i < |files| && Candidate(i) in disk
    ensures OthersUntouched(before, Relocated(disk, Candidate(i), Live(files[i].target)), files)
  {
    var disk' := Relocated(disk, Candidate(i), Live(files[i].target));
    forall t: string | !Targets(files, t) ensures Same(before, disk', Live(t)) {
      assert t != files[i].target;
      assert Same(before, disk, Live(t));
    }
  }

  lemma FlagsKept(before: Disk, states: seq<State>, i: nat)
    requires i < |states| && AllMovedOrAbsent(before, states)
    ensures AllMovedOrAbsent(before, states[i := states[i].(published := true)])
  {
    var states' := states[i := states[i].(published := true)];
    forall k: nat | k < |states'| ensures GroupMoved(states', states'[k].target) || Live(states'[k].target) !in before {
      assert states'[k].target == states[k].target;
      if GroupMoved(states, states[k].target) {
        var j: nat :| Moves(states, j, states[k].target);
        assert Moves(states', j, states[k].target);
      }
    }
  }

  lemma NoneMoved(before: Disk, disk: Disk, states: seq<State>)
    requires SameLive(before, disk)
    requires forall k: nat :: k < |states| ==> !states[k].moved && !states[k].published
    ensures Recoverable(before, disk, states, |states|, {})
  {
    forall t: string ensures Same(before, disk, Live(t)) {
    }
  }

  lemma EveryTargetMovedOrAbsent(before: Disk, disk: Disk, states: seq<State>)
    requires Recoverable(before, disk, states, |states|, {})
    requires forall k: nat :: k < |states| ==> !states[k].published && Live(states[k].target) !in disk
    ensures AllMovedOrAbsent(before, states)
  {
    forall k: nat | k < |states| ensures GroupMoved(states, states[k].target) || Live(states[k].target) !in before {
      if !GroupMoved(states, states[k].target) {
        assert Same(before, disk, Live(states[k].target)) || GroupPublished(states, states[k].target, |states|, {});
      }
    }
  }

  lemma AllRecovered(before: Disk, disk: Disk, states: seq<State>)
    requires Recoverable(before, disk, states, 0, {})
    ensures SameLive(before, disk)
  {
    forall t: string ensures Same(before, disk, Live(t)) {
      if GroupMoved(states, t) {
        var j: nat :| Moves(states, j, t);
      }
    }
  }

  /** Where an original can be after a recovery that had to report some indices. */
  ghost predicate Accounted(before: Disk, after: Disk, files: seq<BundleFile>, failed: set<nat>, t: string) {
    || Same(before, after, Live(t))
    || (exists j: nat :: j in failed && j < |files| && files[j].target == t && (Live(t) in before ==> Held(before, after, t, j)))
  }

  lemma AllAccounted(before: Disk, disk: Disk, states: seq<State>, files: seq<BundleFile>, failed: set<nat>, t: string)
    requires StatesFor(states, files) && Recoverable(before, disk, states, 0, failed)
    ensures Accounted(before, disk, files, failed, t)
  {
    if GroupMoved(states, t) {
      var j: nat :| Moves(states, j, t);
      if j in failed {
        assert Held(before, disk, t, j) && files[j].target == t;
      }
    } else if !Same(before, disk, Live(t)) {
      var j: nat :| Publishes(states, j, t, 0, failed);
      assert files[j].target == t;
    }
  }

  /** There is something at the target that is no regular file. */
  ghost predicate UnfitTarget(disk: Disk, target: string) {
    Live(target) in disk && disk[Live(target)].Special?
  }

  ghost predicate Unfit(disk: Disk, files: seq<BundleFile>) {
    exists k: nat :: k < |files| && UnfitTarget(disk, files[k].target)
  }

  // ---------- the publication ----------

  class Publication {
    var disk: Disk
    var states: seq<State>

    /** How many operations and hooks have failed. */
    ghost var faults: nat

    constructor (files: Disk)
      ensures disk == files && states == [] && faults == 0
    {
      disk, states, faults := files, [], 0;
    }

    /** rename(2): a failure has no effect, and ENOENT means an absent source. */
    method Rename(source: Path, destination: Path) returns (result: MoveResult)
      modifies this`disk, this`faults
      ensures faults == old(faults) + if result == Refused then 1 else 0
      ensures result == Moved ==> source in old(disk) && disk == Relocated(old(disk), source, destination)
      ensures result != Moved ==> disk == old(disk)
      ensures result == Missing ==> source !in disk
    {
      var fails: bool := *;
      if fails {
        faults := faults + 1;
        result := Refused;
      } else if source in disk {
        disk := Relocated(disk, source, destination);
        result := Moved;
      } else {
        result := Missing;
      }
    }

    /** Refuse targets that are not regular files, and write every candidate. */
    method Stage(files: seq<BundleFile>) returns (ok: bool)
      requires NoStaging(disk) && states == []
      modifies this
      ensures old(faults) <= faults && (ok <==> faults == old(faults) && !Unfit(old(disk), files))
      ensures SameLive(old(disk), disk)
      ensures ok ==> StatesFor(states, files) && CandidatesFrom(disk, files, 0)
      ensures ok ==> forall k: nat :: k < |states| ==> !states[k].moved && !states[k].published
    {
      for i := 0 to |files|
        invariant SameLive(old(disk), disk) && faults == old(faults)
        invariant forall k: nat :: k < i ==> !UnfitTarget(old(disk), files[k].target)
        invariant |states| == i && (forall k :: 0 <= k < i ==> states[k] == State(files[k].target, false, false))
        invariant forall k: nat :: k < i ==> Candidate(k) in disk && disk[Candidate(k)] == Regular(files[k].contents)
      {
        var unreadable: bool := *;
        if unreadable {
          faults := faults + 1;
          return false;
        }
        assert Same(old(disk), disk, Live(files[i].target));
        if Live(files[i].target) in disk && disk[Live(files[i].target)].Special? {
          assert UnfitTarget(old(disk), files[i].target);
          return false;
        }
        var fails: bool := *;
        if fails {
          faults := faults + 1;
          return false;
        }
        ghost var was := disk;
        disk := disk[Candidate(i) := Regular(files[i].contents)];
        SameLiveTransitive(old(disk), was, disk);
        states := states + [State(files[i].target, false, false)];
      }
      ok := true;
    }

    /** Move every existing target aside. */
    method MoveAside(ghost before: Disk, files: seq<BundleFile>) returns (ok: bool)
      requires StatesFor(states, files) && CandidatesFrom(disk, files, 0)
      requires SameLive(before, disk)
      requires forall k: nat :: k < |states| ==> !states[k].moved && !states[k].published
      modifies this
      ensures old(faults) <= faults && (ok <==> faults == old(faults))
      ensures StatesFor(states, files) && CandidatesFrom(disk, files, 0)
      ensures Recoverable(before, disk, states, |states|, {})
      ensures OthersUntouched(before, disk, files)
      ensures forall k: nat :: k < |states| ==> !states[k].published
      ensures ok ==> forall k: nat :: k < |states| ==> Live(states[k].target) !in disk
    {
      NoneMoved(before, disk, states);
      for i := 0 to |states|
        invariant StatesFor(states, files) && CandidatesFrom(disk, files, 0) && faults == old(faults)
        invariant Recoverable(before, disk, states, |states|, {})
        invariant OthersUntouched(before, disk, files)
        invariant forall k: nat :: k < |states| ==> !states[k].published && (i <= k ==> !states[k].moved)
        invariant forall k: nat :: k < i ==> Live(states[k].target) !in disk
      {
        ghost var was := disk;
        var result := Rename(Live(states[i].target), Backup(i));
        if result == Refused { return false; }
        if result == Moved {
          MovedAside(before, was, states, i);
          assert Targets(files, states[i].target) by { assert files[i].target == states[i].target; }
          states := states[i := states[i].(moved := true)];
        }
      }
      ok := true;
    }

    /** Move every candidate into place. */
    method MoveIn(ghost before: Disk, files: seq<BundleFile>) returns (ok: bool)
      requires StatesFor(states, files) && CandidatesFrom(disk, files, 0)
      requires Recoverable(before, disk, states, |states|, {}) && AllMovedOrAbsent(before, states)
      requires OthersUntouched(before, disk, files)
      modifies this
      ensures old(faults) <= faults && (ok <==> faults == old(faults))
      ensures StatesFor(states, files)
      ensures Recoverable(before, disk, states, |states|, {}) && AllMovedOrAbsent(before, states)
      ensures OthersUntouched(before, disk, files)
      ensures ok ==> LastInPlace(disk, files, |files|)
    {
      hide StatesFor, CandidatesFrom, Recoverable, AllMovedOrAbsent, OthersUntouched;
      StatesCount(states, files);
      NothingInPlace(disk, files);
      for i := 0 to |states|
        invariant |states| == |files| && StatesFor(states, files) && CandidatesFrom(disk, files, i) && faults == old(faults)
        invariant Recoverable(before, disk, states, |states|, {}) && AllMovedOrAbsent(before, states)
        invariant OthersUntouched(before, disk, files)
        invariant LastInPlace(disk, files, i)
      {
        var moved := MoveInOne(before, files, i);
        if !moved { return false; }
      }
      ok := true;
    }

    method MoveInOne(ghost before: Disk, files: seq<BundleFile>, i: nat) returns (ok: bool)
      requires i < |states| == |files| && StatesFor(states, files) && CandidatesFrom(disk, files, i) && LastInPlace(disk, files, i)
      requires Recoverable(before, disk, states, |states|, {}) && AllMovedOrAbsent(before, states)
      requires OthersUntouched(before, disk, files)
      modifies this
      ensures old(faults) <= faults && (ok <==> faults == old(faults))
      ensures |states| == |files| && StatesFor(states, files)
      ensures Recoverable(before, disk, states, |states|, {}) && AllMovedOrAbsent(before, states)
      ensures OthersUntouched(before, disk, files)
      ensures ok ==> CandidatesFrom(disk, files, i + 1) && LastInPlace(disk, files, i + 1)
    {
      hide StatesFor, CandidatesFrom, Recoverable, AllMovedOrAbsent, OthersUntouched, LastInPlace, GroupMoved, Relocated;
      var hookThrows: bool := *;
      if hookThrows {
        faults := faults + 1;
        return false;
      }
      ghost var was := disk;
      StateMatches(states, files, i);
      NextCandidate(before, disk, states, files, i);
      var result := Rename(Candidate(i), Live(states[i].target));
      if result != Moved { return false; }
      MovedIn(before, was, states, i);
      MovedInPlaces(was, files, i);
      FlagsKept(before, states, i);
      OthersMovedIn(before, was, files, i);
      states := states[i := states[i].(published := true)];
      ok := true;
    }

    /** Undo in reverse order; the indices that could not be undone are reported. */
    method Recover(ghost before: Disk, files: seq<BundleFile>) returns (failed: set<nat>)
      requires StatesFor(states, files)
      requires Recoverable(before, disk, states, |states|, {}) && PublishedKnown(before, states)
      requires OthersUntouched(before, disk, files)
      modifies this`disk, this`faults
      ensures |failed| + old(faults) <= faults
      ensures Recoverable(before, disk, states, 0, failed)
      ensures OthersUntouched(before, disk, files)
    {
      failed := {};
      for i := |states| downto 0
        invariant Recoverable(before, disk, states, i, failed) && |failed| + old(faults) <= faults
        invariant OthersUntouched(before, disk, files)
        invariant forall k :: k in failed ==> i <= k
      {
        ghost var was, reported := disk, failed;
        assert Targets(files, states[i].target) by { assert files[i].target == states[i].target; }
        var hookThrows: bool := *;
        if hookThrows {
          faults := faults + 1;
          failed := failed + {i};
          LeftAlone(before, was, states, i, reported, failed);
        } else if states[i].moved {
          assert Moves(states, i, states[i].target);
          var result := Rename(Backup(i), Live(states[i].target));
          if result == Moved {
            MovedBack(before, was, states, i, failed);
          } else {
            failed := failed + {i};
            LeftAlone(before, was, states, i, reported, failed);
          }
        } else if states[i].published {
          var fails: bool := *;
          if fails {
            faults := faults + 1;
            failed := failed + {i};
            LeftAlone(before, was, states, i, reported, failed);
          } else {
            disk := disk - {Live(states[i].target)};
            TakenAway(before, was, states, i, failed);
          }
        } else {
          LeftAlone(before, was, states, i, reported, failed);
        }
      }
    }

    /** rm of the staging directory with everything in it. */
    method RemoveStaging()
      modifies this`disk
      ensures SameLive(old(disk), disk) && NoStaging(disk)
    {
      disk := map p | p in disk && p.Live? :: disk[p];
    }

    /** publishLegacyBundles. */
    method Publish(files: seq<BundleFile>) returns (outcome: Outcome)
      requires NoStaging(disk) && states == []
      modifies this
      // It goes through unless a target is no regular file or something fails, and every index that
      // is reported comes with a failure of its own, besides the one that stopped the publication.
      ensures outcome.Published? <==> faults == old(faults) && !Unfit(old(disk), files)
      ensures outcome.RecoveryIncomplete? ==> |outcome.failed| + old(faults) < faults
      ensures old(faults) <= faults
      ensures outcome.Published? ==> disk == WithBundles(old(disk), files)
      ensures outcome.Restored? ==> disk == old(disk)
      // Recovery stopped short: a target is as before unless an index listed for it was reported,
      // and then its original is still in the staging directory under that index.
      ensures outcome.RecoveryIncomplete? ==> outcome.failed != {} && OthersUntouched(old(disk), disk, files)
      ensures outcome.RecoveryIncomplete? ==> forall t: string :: Accounted(old(disk), disk, files, outcome.failed, t)
    {
      ghost var before := disk;
      var ok := Stage(files);
      if !ok {
        ghost var staged := disk;
        RemoveStaging();
        SameLiveTransitive(before, staged, disk);
        SameLiveFiles(before, disk);
        return Restored;
      }
      ok := MoveAside(before, files);
      if ok {
        EveryTargetMovedOrAbsent(before, disk, states);
        ok := MoveIn(before, files);
      }
      if !ok {
        var failed := Recover(before, files);
        if failed != {} {
          forall t: string ensures Accounted(before, disk, files, failed, t) {
            AllAccounted(before, disk, states, files, failed, t);
          }
          return RecoveryIncomplete(failed);
        }
        AllRecovered(before, disk, states);
        ghost var recovered := disk;
        RemoveStaging();
        SameLiveTransitive(before, recovered, disk);
        SameLiveFiles(before, disk);
        return Restored;
      }
      ghost var placed := disk;
      RemoveStaging();
      PublishedDisk(before, placed, disk, files);
      return Published;
    }

    /** restoreLegacyBundleFiles: the recorded files are published again and the recorded absences
        made true.  A disk that differs from the current one only in the recorded targets, and that
        the record describes, is restored exactly. */
    method RestoreFiles(previous: seq<PreviousFile>) returns (ok: bool)
      requires NoStaging(disk)
      modifies this
      ensures ok <==> faults == old(faults) && !Unfit(old(disk), Existing(previous))
      ensures ok ==> forall original :: NoStaging(original) && Describes(previous, original) && DiffersOnlyIn(previous, original, old(disk)) ==> disk == original
    {
      ghost var before := disk;
      states := [];
      var outcome := Publish(Existing(previous));
      if !outcome.Published? { return false; }
      ghost var published := disk;
      for i := 0 to |previous|
        invariant disk == WithoutAbsent(published, previous[..i]) && faults == old(faults)
      {
        assert previous[..i + 1][..i] == previous[..i];
        if previous[i].contents.None? {
          if * {
            faults := faults + 1;
            return false;
          }
          disk := disk - {Live(previous[i].target)};
        }
      }
      assert previous[..|previous|] == previous;
      forall original | NoStaging(original) && Describes(previous, original) && DiffersOnlyIn(previous, original, before)
        ensures disk == original
      {
        RestoredDisk(original, before, previous);
      }
      return true;
    }
  }

  // ---------- restoring what was recorded ----------

  datatype Option<T> = None | Some(value: T)

  /** A target with its recorded contents, or none when it was absent. */
  datatype PreviousFile = PreviousFile(target: string, contents: Option<Contents>)

  function Existing(previous: seq<PreviousFile>): seq<BundleFile> {
    if previous == [] then []
    else
      var last := previous[|previous| - 1];
      Existing(previous[..|previous| - 1])
        + if last.contents.None? then [] else [BundleFile(last.target, last.contents.value)]
  }

  function WithoutAbsent(disk: Disk, previous: seq<PreviousFile>): Disk {
    if previous == [] then disk
    else
      var before := WithoutAbsent(disk, previous[..|previous| - 1]);
      if previous[|previous| - 1].contents.None? then before - {Live(previous[|previous| - 1].target)} else before
  }

  ghost predicate Describes(previous: seq<PreviousFile>, disk: Disk) {
    forall k :: 0 <= k < |previous| ==> DescribedBy(previous[k], disk)
  }

  predicate DescribedBy(f: PreviousFile, disk: Disk) {
    match f.contents
    case None => Live(f.target) !in disk
    case Some(contents) => Live(f.target) in disk && disk[Live(f.target)] == Regular(contents)
  }

  ghost predicate Records(previous: seq<PreviousFile>, t: string) {
    exists k :: 0 <= k < |previous| && previous[k].target == t
  }

  ghost predicate DiffersOnlyIn(previous: seq<PreviousFile>, a: Disk, b: Disk) {
    forall t: string {:trigger Same(a, b, Live(t))} :: !Records(previous, t) ==> Same(a, b, Live(t))
  }

  lemma RecordsOneMore(front: seq<PreviousFile>, last: PreviousFile, t: string)
    ensures Records(front + [last], t) <==> Records(front, t) || last.target == t
  {
    var all := front + [last];
    if Records(front, t) {
      var k :| 0 <= k < |front| && front[k].target == t;
      assert all[k].target == t;
    }
    if last.target == t { assert all[|front|].target == t; }
    if Records(all, t) {
      var k :| 0 <= k < |all| && all[k].target == t;
      if k < |front| { assert front[k].target == t; }
    }
  }

  /** Publishing the files that existed puts each of them at its target and touches no other. */
  lemma {:induction false} ExistingAt(original: Disk, disk: Disk, previous: seq<PreviousFile>, t: string)
    requires Describes(previous, original)
    ensures var n := WithBundles(disk, Existing(previous));
            if Records(previous, t) && Live(t) in original then Same(original, n, Live(t)) else Same(disk, n, Live(t))
  {
    if previous == [] {
      assert !Records(previous, t);
    } else {
      hide Records, WithBundles, Existing, Describes, DescribedBy, Same;
      var front, last := previous[..|previous| - 1], previous[|previous| - 1];
      assert previous == front + [last];
      DescribesBoth(front, last, original);
      ExistingAt(original, disk, front, t);
      ExistingStep(original, disk, front, last, t);
    }
  }

  lemma DescribesBoth(front: seq<PreviousFile>, last: PreviousFile, original: Disk)
    requires Describes(front + [last], original)
    ensures Describes(front, original) && DescribedBy(last, original)
  {
    hide DescribedBy;
    var all := front + [last];
    forall k | 0 <= k < |front| ensures DescribedBy(front[k], original) { assert all[k] == front[k]; }
    assert all[|front|] == last;
  }

  lemma ExistingStep(original: Disk, disk: Disk, front: seq<PreviousFile>, last: PreviousFile, t: string)
    requires DescribedBy(last, original)
    requires var n := WithBundles(disk, Existing(front));
             if Records(front, t) && Live(t) in original then Same(original, n, Live(t)) else Same(disk, n, Live(t))
    ensures var n := WithBundles(disk, Existing(front + [last]));
            if Records(front + [last], t) && Live(t) in original then Same(original, n, Live(t)) else Same(disk, n, Live(t))
  {
    hide Records, WithBundles, Existing;
    RecordsOneMore(front, last, t);
    ExistingOneMore(front, last);
    if last.contents.Some? {
      BundlesOneMore(disk, Existing(front), BundleFile(last.target, last.contents.value));
    }
  }

  lemma ExistingOneMore(front: seq<PreviousFile>, last: PreviousFile)
    ensures Existing(front + [last]) ==
            if last.contents.None? then Existing(front) else Existing(front) + [BundleFile(last.target, last.contents.value)]
  {
    assert (front + [last])[..|front|] == front;
    assert Existing(front) + [] == Existing(front);
  }

  lemma BundlesOneMore(disk: Disk, files: seq<BundleFile>, f: BundleFile)
    ensures WithBundles(disk, files + [f]) == WithBundles(disk, files)[Live(f.target) := Regular(f.contents)]
  {
    assert (files + [f])[..|files|] == files;
  }

  ghost predicate RecordedAbsent(previous: seq<PreviousFile>, p: Path) {
    p.Live? && exists k :: 0 <= k < |previous| && previous[k].target == p.name && previous[k].contents.None?
  }

  lemma {:induction false} AbsentAt(disk: Disk, previous: seq<PreviousFile>, p: Path)
    ensures p in WithoutAbsent(disk, previous) <==> p in disk && !RecordedAbsent(previous, p)
    ensures p in WithoutAbsent(disk, previous) ==> WithoutAbsent(disk, previous)[p] == disk[p]
  {
    if previous != [] {
      var front, last := previous[..|previous| - 1], previous[|previous| - 1];
      AbsentAt(disk, front, p);
      if RecordedAbsent(front, p) {
        var k :| 0 <= k < |front| && front[k].target == p.name && front[k].contents.None?;
        assert previous[k] == front[k];
      }
      if RecordedAbsent(previous, p) {
        var k :| 0 <= k < |previous| && previous[k].target == p.name && previous[k].contents.None?;
        if k < |front| { assert front[k] == previous[k]; }
      }
      if p == Live(last.target) && last.contents.None? { assert previous[|previous| - 1].target == p.name; }
    }
  }

  lemma RestoredDisk(original: Disk, before: Disk, previous: seq<PreviousFile>)
    requires NoStaging(original) && NoStaging(before) && Describes(previous, original) && DiffersOnlyIn(previous, original, before)
    ensures WithoutAbsent(WithBundles(before, Existing(previous)), previous) == original
  {
    var published := WithBundles(before, Existing(previous));
    forall p: Path ensures Same(original, WithoutAbsent(published, previous), p) {
      AbsentAt(published, previous, p);
      WithBundlesAt(before, Existing(previous), p);
      if p.Live? {
        ExistingAt(original, before, previous, p.name);
        if Records(previous, p.name) {
          var k :| 0 <= k < |previous| && previous[k].target == p.name;
          assert DescribedBy(previous[k], original);
        } else {
          assert Same(original, before, Live(p.name));
        }
      }
    }
    SameEverywhere(original, WithoutAbsent(published, previous));
  }
}
