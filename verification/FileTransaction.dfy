/** Replacing several files as one transaction, with staging, backups, rollback and cleanup
    (src/file-transaction.ts).  Every file operation goes through an executor that may fail
    before the operation takes effect or after it; the transaction is proved against all of
    these failures at once. */
module FileTransaction {

  type Contents = string

  /** A target is named by its resolved absolute path.  The temporary and backup names of an
      entry carry a random token in the source, so they are modelled as names of their own. */
  datatype Path = Target(name: string) | Temporary(index: nat) | Backup(index: nat)

  type Disk = map<Path, Contents>

  datatype FileReplacement = FileReplacement(path: string, title: string, contents: Contents)

  datatype TransactionEntry = TransactionEntry(
    replacement: FileReplacement,
    index: nat,
    hadOriginal: bool,
    originalMoved: bool,
    replacementMayExist: bool
  )
  {
    function Live(): Path { Target(replacement.path) }
    function TemporaryPath(): Path { Temporary(index) }
    function BackupPath(): Path { Backup(index) }
  }

  datatype Action = Restore | RemoveReplacement | RemoveTemporary | RemoveBackup
  datatype Code = BackupMissing | Reported
  datatype RecoveryFailure = RecoveryFailure(action: Action, title: string, code: Code)
  datatype Recovery = Complete | Incomplete | Committed
  datatype Outcome = Replaced | Failed(recovery: Recovery, failures: seq<RecoveryFailure>)

  /** What an inspected path turned out to be; Unreadable is any error other than ENOENT. */
  datatype Inspection = Present | Absent | Unreadable

  // ---------- the vocabulary of the specification ----------

  predicate DistinctTargets(replacements: seq<FileReplacement>) {
    forall j, k :: 0 <= j < k < |replacements| ==> replacements[j].path != replacements[k].path
  }

  ghost predicate NoArtifacts(disk: Disk) {
    forall p :: p in disk ==> p.Target?
  }

  ghost predicate Same(before: Disk, after: Disk, p: Path) {
    (p in before <==> p in after) && (p in before ==> after[p] == before[p])
  }

  /** The disk a caller asks for: every replacement in place, every other file as before. */
  ghost function WithReplacements(disk: Disk, replacements: seq<FileReplacement>): Disk {
    if replacements == [] then disk
    else
      var last := replacements[|replacements| - 1];
      WithReplacements(disk, replacements[..|replacements| - 1])[Target(last.path) := last.contents]
  }

  function Moved(disk: Disk, source: Path, destination: Path): Disk
    requires source in disk
  {
    (disk - {source})[destination := disk[source]]
  }

  ghost predicate TitleFailed(failures: seq<RecoveryFailure>, title: string) {
    exists k :: 0 <= k < |failures| && failures[k].title == title
  }

  ghost predicate NeverBackupMissing(failures: seq<RecoveryFailure>) {
    forall k :: 0 <= k < |failures| ==> failures[k].code != BackupMissing
  }

  /** The original bytes of an entry are still on disk, at the target or under the backup name. */
  ghost predicate OriginalKept(before: Disk, after: Disk, target: Path, backup: Path) {
    target in before ==>
      || (target in after && after[target] == before[target])
      || (backup in after && after[backup] == before[target])
  }

  // ---------- what the flags of one entry say about the disk ----------

  /** The link between the flags of an entry and the disk while its transaction is under way. */
  ghost predicate Recoverable(before: Disk, disk: Disk, e: TransactionEntry) {
    if e.hadOriginal then
      && e.Live() in before
      && (e.originalMoved ==> e.BackupPath() in disk)
      && (if e.BackupPath() in disk
          then disk[e.BackupPath()] == before[e.Live()]
          else Same(before, disk, e.Live()))
    else
      && !e.originalMoved
      && e.BackupPath() !in disk
      && (if e.replacementMayExist then e.Live() !in before else Same(before, disk, e.Live()))
  }

  /** A staged entry has touched nothing of the user's and holds its replacement in the temporary. */
  ghost predicate Staged(before: Disk, disk: Disk, e: TransactionEntry) {
    && e.TemporaryPath() in disk && disk[e.TemporaryPath()] == e.replacement.contents
    && e.BackupPath() !in disk
    && Same(before, disk, e.Live())
    && (e.hadOriginal <==> e.Live() in before)
    && !e.originalMoved && !e.replacementMayExist
  }

  ghost predicate OnlyEntryChanged(a: seq<TransactionEntry>, b: seq<TransactionEntry>, i: nat) {
    && i < |a| == |b|
    && a[i].replacement == b[i].replacement && a[i].index == b[i].index
    && (forall j :: 0 <= j < |a| && j != i ==> a[j] == b[j])
  }

  ghost predicate SameReplacements(a: seq<TransactionEntry>, b: seq<TransactionEntry>) {
    && |a| == |b|
    && (forall j :: 0 <= j < |a| ==> a[j].replacement == b[j].replacement && a[j].index == b[j].index)
  }

  ghost predicate RolledBack(before: Disk, disk: Disk, e: TransactionEntry) {
    Same(before, disk, e.Live()) && e.BackupPath() !in disk
  }

  /** The entry's replacement is in place, and its original, if any, is under the backup name. */
  ghost predicate InPlace(disk: Disk, e: TransactionEntry) {
    e.Live() in disk && disk[e.Live()] == e.replacement.contents
  }

  ghost predicate WellFormed(entries: seq<TransactionEntry>) {
    && (forall j :: 0 <= j < |entries| ==> entries[j].index == j)
    && (forall j, k :: 0 <= j < k < |entries| ==> entries[j].replacement.path != entries[k].replacement.path)
  }

  ghost predicate ArtifactsOf(disk: Disk, entries: seq<TransactionEntry>) {
    forall p :: p in disk && !p.Target? ==> p.index < |entries|
  }

  ghost predicate OthersUntouched(before: Disk, after: Disk, replacements: seq<FileReplacement>) {
    forall p: Path {:trigger Same(before, after, p)} ::
      p.Target? && (forall j :: 0 <= j < |replacements| ==> Target(replacements[j].path) != p) ==> Same(before, after, p)
  }

  /** Nothing but the targets and the artifacts of these entries differs from the first disk. */
  ghost predicate OnlyEntriesTouched(before: Disk, disk: Disk, entries: seq<TransactionEntry>) {
    && ArtifactsOf(disk, entries)
    && (forall p: Path {:trigger Same(before, disk, p)} ::
          p.Target? && (forall j :: 0 <= j < |entries| ==> entries[j].Live() != p) ==> Same(before, disk, p))
  }

  ghost predicate AllRecoverable(before: Disk, disk: Disk, entries: seq<TransactionEntry>) {
    && WellFormed(entries)
    && OnlyEntriesTouched(before, disk, entries)
    && (forall j :: 0 <= j < |entries| ==> Recoverable(before, disk, entries[j]))
  }

  ghost predicate EntriesFor(entries: seq<TransactionEntry>, replacements: seq<FileReplacement>) {
    && |entries| <= |replacements|
    && (forall j :: 0 <= j < |entries| ==> entries[j].replacement == replacements[j])
  }

  // ---------- lemmas that connect the per-entry facts to the whole disk ----------

  lemma {:induction false} WithReplacementsAt(disk: Disk, rs: seq<FileReplacement>, p: Path)
    requires DistinctTargets(rs)
    ensures (forall j :: 0 <= j < |rs| ==> Target(rs[j].path) != p) ==> Same(disk, WithReplacements(disk, rs), p)
    ensures forall j :: 0 <= j < |rs| && Target(rs[j].path) == p ==>
              p in WithReplacements(disk, rs) && WithReplacements(disk, rs)[p] == rs[j].contents
  {
    if rs != [] {
      var init := rs[..|rs| - 1];
      WithReplacementsAt(disk, init, p);
      assert forall j :: 0 <= j < |init| ==> rs[j] == init[j];
    }
  }

  lemma SameEverywhere(a: Disk, b: Disk)
    requires forall p: Path :: Same(a, b, p)
    ensures a == b
  {
    forall p: Path ensures p in a <==> p in b {
      assert Same(a, b, p);
    }
    forall p: Path | p in a ensures a[p] == b[p] {
      assert Same(a, b, p);
    }
  }

  ghost predicate OnlyArtifactsRemoved(before: Disk, after: Disk) {
    && (forall p :: p in after ==> p in before && after[p] == before[p])
    && (forall p :: p in before && p.Target? ==> p in after)
  }

  lemma FailuresGrow(a: seq<RecoveryFailure>, b: seq<RecoveryFailure>)
    requires a <= b
    ensures forall t {:trigger TitleFailed(b, t)} :: TitleFailed(a, t) ==> TitleFailed(b, t)
    ensures |a| < |b| ==> TitleFailed(b, b[|a|].title)
  {
    forall t | TitleFailed(a, t) ensures TitleFailed(b, t) {
      var k :| 0 <= k < |a| && a[k].title == t;
      assert b[k].title == t;
    }
  }

  /** Between these two disks only the three paths of one entry may differ. */
  ghost predicate StepOf(before: Disk, after: Disk, e: TransactionEntry) {
    forall p: Path :: p != e.Live() && p != e.TemporaryPath() && p != e.BackupPath() ==> Same(before, after, p)
  }

  ghost predicate PathsSame(before: Disk, after: Disk, e: TransactionEntry) {
    Same(before, after, e.Live()) && Same(before, after, e.TemporaryPath()) && Same(before, after, e.BackupPath())
  }

  lemma Framed(before: Disk, disk: Disk, disk': Disk, entries: seq<TransactionEntry>, i: nat)
    requires WellFormed(entries) && OnlyEntriesTouched(before, disk, entries)
    requires i < |entries| && StepOf(disk, disk', entries[i])
    ensures OnlyEntriesTouched(before, disk', entries)
    ensures forall j :: 0 <= j < |entries| && j != i ==> PathsSame(disk, disk', entries[j])
  {
    forall p | p in disk' && !p.Target? ensures p.index < |entries| {
      if p != entries[i].TemporaryPath() && p != entries[i].BackupPath() {
        assert Same(disk, disk', p);
      }
    }
    forall p: Path | p.Target? && (forall j :: 0 <= j < |entries| ==> entries[j].Live() != p)
      ensures Same(before, disk', p)
    {
      assert Same(disk, disk', p) && Same(before, disk, p);
    }
  }

  lemma {:induction false} AllInPlace(before: Disk, disk: Disk, entries: seq<TransactionEntry>, rs: seq<FileReplacement>, p: Path)
    requires WellFormed(entries) && OnlyEntriesTouched(before, disk, entries)
    requires EntriesFor(entries, rs) && |entries| == |rs| && DistinctTargets(rs)
    requires forall j :: 0 <= j < |entries| ==> InPlace(disk, entries[j])
    requires p.Target?
    ensures Same(WithReplacements(before, rs), disk, p)
  {
    WithReplacementsAt(before, rs, p);
    if j :| 0 <= j < |rs| && Target(rs[j].path) == p {
      assert entries[j].Live() == p;
    } else {
      assert Same(before, disk, p);
    }
  }

  /** After a commit and its cleanup every target is new and every other file is as before. */
  lemma TargetsReplaced(before: Disk, committed: Disk, disk: Disk, entries: seq<TransactionEntry>, rs: seq<FileReplacement>)
    requires WellFormed(entries) && OnlyEntriesTouched(before, committed, entries)
    requires EntriesFor(entries, rs) && |entries| == |rs| && DistinctTargets(rs)
    requires forall j :: 0 <= j < |entries| ==> InPlace(committed, entries[j])
    requires OnlyArtifactsRemoved(committed, disk)
    ensures forall p: Path {:trigger Same(WithReplacements(before, rs), disk, p)} :: p.Target? ==> Same(WithReplacements(before, rs), disk, p)
    ensures OthersUntouched(before, disk, rs) && ArtifactsOf(disk, entries)
  {
    forall p: Path | p.Target? ensures Same(WithReplacements(before, rs), disk, p) {
      AllInPlace(before, committed, entries, rs, p);
    }
    forall p: Path | p.Target? && (forall j :: 0 <= j < |rs| ==> Target(rs[j].path) != p) ensures Same(before, disk, p) {
      WithReplacementsAt(before, rs, p);
      assert Same(WithReplacements(before, rs), disk, p);
    }
  }

  lemma LeftoversReported(disk: Disk, entries: seq<TransactionEntry>, rs: seq<FileReplacement>, failures: seq<RecoveryFailure>)
    requires WellFormed(entries) && EntriesFor(entries, rs) && |entries| == |rs|
    requires forall j :: 0 <= j < |entries| && !TitleFailed(failures, entries[j].replacement.title) ==>
               entries[j].TemporaryPath() !in disk && entries[j].BackupPath() !in disk
    ensures forall j: nat :: j < |rs| && !TitleFailed(failures, rs[j].title) ==> Temporary(j) !in disk && Backup(j) !in disk
  {
    hide TitleFailed;
    forall j: nat | j < |rs| && !TitleFailed(failures, rs[j].title) ensures Temporary(j) !in disk && Backup(j) !in disk {
      assert entries[j].replacement == rs[j] && entries[j].index == j;
    }
  }

  lemma NothingReported(disk: Disk, entries: seq<TransactionEntry>, failures: seq<RecoveryFailure>)
    requires failures == []
    requires forall j :: 0 <= j < |entries| && !TitleFailed(failures, entries[j].replacement.title) ==>
               entries[j].TemporaryPath() !in disk && entries[j].BackupPath() !in disk
    ensures forall j :: 0 <= j < |entries| ==> entries[j].TemporaryPath() !in disk && entries[j].BackupPath() !in disk
  {
  }

  lemma UnnamedUntouched(before: Disk, disk: Disk, entries: seq<TransactionEntry>, rs: seq<FileReplacement>)
    requires OnlyEntriesTouched(before, disk, entries) && EntriesFor(entries, rs)
    ensures OthersUntouched(before, disk, rs)
  {
    forall p: Path | p.Target? && (forall j :: 0 <= j < |rs| ==> Target(rs[j].path) != p)
      ensures Same(before, disk, p)
    {
      assert forall j :: 0 <= j < |entries| ==> entries[j].Live() != p;
    }
  }

  function NewEntry(replacement: FileReplacement, index: nat): TransactionEntry {
    TransactionEntry(replacement, index, false, false, false)
  }

  lemma TouchedSame(before: Disk, disk: Disk, a: seq<TransactionEntry>, b: seq<TransactionEntry>, i: nat)
    requires OnlyEntriesTouched(before, disk, a) && OnlyEntryChanged(a, b, i)
    ensures OnlyEntriesTouched(before, disk, b)
  {
  }

  lemma StillWellFormed(a: seq<TransactionEntry>, b: seq<TransactionEntry>, i: nat)
    requires WellFormed(a) && OnlyEntryChanged(a, b, i)
    ensures WellFormed(b) && SameReplacements(a, b)
  {
  }

  /** A step on one entry leaves every other entry in the condition it was in. */
  lemma OthersAsBefore(before: Disk, was: Disk, disk: Disk, a: seq<TransactionEntry>, b: seq<TransactionEntry>, i: nat)
    requires OnlyEntryChanged(a, b, i) && forall j :: 0 <= j < |b| && j != i ==> PathsSame(was, disk, b[j])
    ensures forall j :: 0 <= j < |b| && j != i ==> b[j] == a[j] && AsBefore(before, was, disk, b[j])
  {
    hide PathsSame, AsBefore;
    forall j | 0 <= j < |b| && j != i ensures b[j] == a[j] && AsBefore(before, was, disk, b[j]) {
      EntryAsBefore(before, was, disk, b[j]);
    }
  }

  ghost predicate AsBefore(before: Disk, was: Disk, disk: Disk, e: TransactionEntry) {
    && (Recoverable(before, was, e) ==> Recoverable(before, disk, e))
    && (Staged(before, was, e) ==> Staged(before, disk, e))
    && (InPlace(was, e) ==> InPlace(disk, e))
    && (RolledBack(before, was, e) ==> RolledBack(before, disk, e))
    && (OriginalKept(before, was, e.Live(), e.BackupPath()) ==> OriginalKept(before, disk, e.Live(), e.BackupPath()))
    && (e.TemporaryPath() !in was ==> e.TemporaryPath() !in disk)
  }

  lemma TemporaryGone(before: Disk, was: Disk, disk: Disk, e: TransactionEntry)
    requires disk == was || disk == was - {e.TemporaryPath()}
    ensures StepOf(was, disk, e)
    ensures RolledBack(before, was, e) ==> RolledBack(before, disk, e)
    ensures OriginalKept(before, was, e.Live(), e.BackupPath()) ==> OriginalKept(before, disk, e.Live(), e.BackupPath())
  {
  }

  lemma EntryAsBefore(before: Disk, was: Disk, disk: Disk, e: TransactionEntry)
    requires PathsSame(was, disk, e)
    ensures AsBefore(before, was, disk, e)
  {
  }

  lemma EntryAdded(before: Disk, disk: Disk, entries: seq<TransactionEntry>, rs: seq<FileReplacement>)
    requires AllRecoverable(before, disk, entries) && NoArtifacts(before)
    requires DistinctTargets(rs) && EntriesFor(entries, rs) && |entries| < |rs|
    ensures AllRecoverable(before, disk, entries + [NewEntry(rs[|entries|], |entries|)])
    ensures EntriesFor(entries + [NewEntry(rs[|entries|], |entries|)], rs)
    ensures Same(before, disk, Target(rs[|entries|].path))
    ensures Temporary(|entries|) !in disk && Backup(|entries|) !in disk
  {
    var all := entries + [NewEntry(rs[|entries|], |entries|)];
    assert forall j :: 0 <= j < |entries| ==> all[j] == entries[j];
    assert Same(before, disk, Target(rs[|entries|].path));
  }

  /** The claim of an incomplete recovery, entry by entry: originals survive, and a target whose
      title is not reported is fully restored. */
  ghost predicate RecoveredUnlessReported(before: Disk, after: Disk, rs: seq<FileReplacement>, failures: seq<RecoveryFailure>) {
    && (forall j: nat :: j < |rs| ==> OriginalKept(before, after, Target(rs[j].path), Backup(j)))
    && (forall j: nat :: j < |rs| && !TitleFailed(failures, rs[j].title) ==>
          Same(before, after, Target(rs[j].path)) && Temporary(j) !in after && Backup(j) !in after)
  }

  lemma EntriesRecovered(before: Disk, disk: Disk, entries: seq<TransactionEntry>, rs: seq<FileReplacement>, failures: seq<RecoveryFailure>)
    requires WellFormed(entries) && OnlyEntriesTouched(before, disk, entries)
    requires DistinctTargets(rs) && EntriesFor(entries, rs)
    requires forall j :: 0 <= j < |entries| ==> OriginalKept(before, disk, entries[j].Live(), entries[j].BackupPath())
    requires forall j :: 0 <= j < |entries| && !TitleFailed(failures, entries[j].replacement.title) ==>
               RolledBack(before, disk, entries[j]) && entries[j].TemporaryPath() !in disk
    ensures RecoveredUnlessReported(before, disk, rs, failures)
  {
    forall j: nat | j < |rs|
      ensures OriginalKept(before, disk, Target(rs[j].path), Backup(j))
      ensures !TitleFailed(failures, rs[j].title) ==>
                Same(before, disk, Target(rs[j].path)) && Temporary(j) !in disk && Backup(j) !in disk
    {
      if j < |entries| {
        assert entries[j].replacement == rs[j] && entries[j].index == j;
      } else {
        assert Same(before, disk, Target(rs[j].path));
      }
    }
  }

  lemma NoArtifactsLeft(disk: Disk, entries: seq<TransactionEntry>)
    requires WellFormed(entries) && ArtifactsOf(disk, entries)
    requires forall j :: 0 <= j < |entries| ==> entries[j].TemporaryPath() !in disk && entries[j].BackupPath() !in disk
    ensures NoArtifacts(disk)
  {
    forall i: nat | i < |entries| ensures Temporary(i) !in disk && Backup(i) !in disk {
      assert entries[i].index == i;
    }
  }

  lemma {:induction false} AllRolledBack(before: Disk, disk: Disk, entries: seq<TransactionEntry>)
    requires NoArtifacts(before)
    requires WellFormed(entries) && OnlyEntriesTouched(before, disk, entries)
    requires forall j :: 0 <= j < |entries| ==> RolledBack(before, disk, entries[j]) && entries[j].TemporaryPath() !in disk
    ensures disk == before
  {
    NoArtifactsLeft(disk, entries);
    forall p: Path ensures Same(before, disk, p) {
      if p.Target? {
        if j :| 0 <= j < |entries| && entries[j].Live() == p {
          assert RolledBack(before, disk, entries[j]);
        }
      }
    }
    SameEverywhere(before, disk);
  }

  lemma {:induction false} ReplacedDisk(before: Disk, disk: Disk, entries: seq<TransactionEntry>, rs: seq<FileReplacement>)
    requires NoArtifacts(before) && DistinctTargets(rs)
    requires WellFormed(entries) && ArtifactsOf(disk, entries)
    requires forall j :: 0 <= j < |entries| ==> entries[j].TemporaryPath() !in disk && entries[j].BackupPath() !in disk
    requires forall p: Path {:trigger Same(WithReplacements(before, rs), disk, p)} :: p.Target? ==> Same(WithReplacements(before, rs), disk, p)
    ensures disk == WithReplacements(before, rs)
  {
    NoArtifactsLeft(disk, entries);
    forall p: Path ensures Same(WithReplacements(before, rs), disk, p) {
      if !p.Target? {
        WithReplacementsAt(before, rs, p);
      }
    }
    SameEverywhere(WithReplacements(before, rs), disk);
  }

  // ---------- the transaction ----------

  class Transaction {
    var disk: Disk
    var entries: seq<TransactionEntry>
    var failures: seq<RecoveryFailure>

    /** How many operations the executor has not run, or has reported as failures after running them. */
    ghost var faults: nat

    constructor (files: Disk)
      ensures disk == files && entries == [] && failures == [] && faults == 0
    {
      disk, entries, failures, faults := files, [], [], 0;
    }

    /** rename(2) through the executor: it may not run, and it may report failure after running.
        Without such a fault it fails only when there is nothing to rename. */
    method Rename(source: Path, destination: Path) returns (ok: bool)
      modifies this`disk, this`faults
      ensures disk == old(disk) || (source in old(disk) && disk == Moved(old(disk), source, destination))
      ensures ok ==> source in old(disk) && disk == Moved(old(disk), source, destination)
      ensures faults == old(faults) + if !ok && source in old(disk) then 1 else 0
    {
      var runs: bool := *;
      ok := *;
      if source !in disk { return false; }
      if runs { disk := Moved(disk, source, destination); } else { ok := false; }
      if !ok { faults := faults + 1; }
    }

    /** An exclusive write: it never opens an existing file, and a failure may leave a part of it. */
    method Write(path: Path, contents: Contents) returns (ok: bool)
      modifies this`disk, this`faults
      ensures disk == old(disk) || (path !in old(disk) && path in disk && disk == old(disk)[path := disk[path]])
      ensures ok ==> path in disk && disk[path] == contents
      ensures path in old(disk) ==> !ok
      ensures faults == old(faults) + if !ok && path !in old(disk) then 1 else 0
    {
      var runs: bool := *;
      ok := *;
      if path in disk { return false; }
      if runs {
        var length: nat :| length <= |contents|;
        disk := disk[path := if ok then contents else contents[..length]];
      } else {
        ok := false;
      }
      if !ok { faults := faults + 1; }
    }

    /** rm with force: removing an absent file succeeds. */
    method Remove(path: Path) returns (ok: bool)
      modifies this`disk, this`faults
      ensures disk == old(disk) || disk == old(disk) - {path}
      ensures ok ==> disk == old(disk) - {path}
      ensures faults == old(faults) + if ok then 0 else 1
    {
      var runs: bool := *;
      ok := *;
      if runs { disk := disk - {path}; } else { ok := false; }
      if !ok { faults := faults + 1; }
    }

    /** lstat through the executor: ENOENT is only ever reported for an absent path. */
    method Inspect(path: Path) returns (found: Inspection)
      modifies this`faults
      ensures found == Present ==> path in disk
      ensures found == Absent ==> path !in disk
      ensures faults == old(faults) + if found == Unreadable then 1 else 0
    {
      var fails: bool := *;
      if fails {
        faults := faults + 1;
        return Unreadable;
      }
      found := if path in disk then Present else Absent;
    }

    /** The existence probe used during recovery: an unreadable path counts as existing. */
    method ArtifactExists(path: Path) returns (exists_: bool)
      modifies this`faults
      ensures !exists_ ==> path !in disk
      ensures faults == old(faults) || (exists_ && faults == old(faults) + 1)
      ensures faults == old(faults) && exists_ ==> path in disk
    {
      var found := Inspect(path);
      exists_ := found != Absent;
    }

    /** The inspect-and-write loop. */
    method Stage(replacements: seq<FileReplacement>) returns (ok: bool)
      requires NoArtifacts(disk) && DistinctTargets(replacements) && entries == []
      modifies this`disk, this`entries, this`faults
      ensures old(faults) <= faults && (ok <==> faults == old(faults))
      ensures EntriesFor(entries, replacements)
      ensures AllRecoverable(old(disk), disk, entries)
      ensures ok ==> |entries| == |replacements|
      ensures ok ==> forall j :: 0 <= j < |entries| ==> Staged(old(disk), disk, entries[j])
    {
      ghost var before := disk;
      for i := 0 to |replacements|
        invariant |entries| == i && EntriesFor(entries, replacements) && faults == old(faults)
        invariant AllRecoverable(before, disk, entries)
        invariant forall j :: 0 <= j < i ==> Staged(before, disk, entries[j])
      {
        hide Recoverable, Staged, InPlace, RolledBack, OriginalKept, OnlyEntriesTouched, StepOf, PathsSame, WellFormed;
        EntryAdded(before, disk, entries, replacements);
        entries := entries + [NewEntry(replacements[i], i)];
        ghost var was, previous := disk, entries;
        var staged := StageEntry(before, i);
        StillWellFormed(previous, entries, i);
        TouchedSame(before, was, previous, entries, i);
        Framed(before, was, disk, entries, i);
        OthersAsBefore(before, was, disk, previous, entries, i);
        if !staged { return false; }
      }
      ok := true;
    }

    method StageEntry(ghost before: Disk, i: nat) returns (ok: bool)
      requires i < |entries| && Same(before, disk, entries[i].Live())
      requires entries[i].TemporaryPath() !in disk && entries[i].BackupPath() !in disk
      requires !entries[i].hadOriginal && !entries[i].originalMoved && !entries[i].replacementMayExist
      modifies this`disk, this`entries, this`faults
      ensures old(faults) <= faults && (ok <==> faults == old(faults))
      ensures OnlyEntryChanged(old(entries), entries, i)
      ensures StepOf(old(disk), disk, entries[i])
      ensures Recoverable(before, disk, entries[i])
      ensures ok ==> Staged(before, disk, entries[i])
    {
      var found := Inspect(entries[i].Live());
      if found == Unreadable { return false; }
      entries := entries[i := entries[i].(hadOriginal := found == Present)];
      ok := Write(entries[i].TemporaryPath(), entries[i].replacement.contents);
    }

    /** The backup-and-replace loop. */
    method Commit(ghost before: Disk) returns (ok: bool)
      requires AllRecoverable(before, disk, entries)
      requires forall j :: 0 <= j < |entries| ==> Staged(before, disk, entries[j])
      modifies this`disk, this`entries, this`faults
      ensures old(faults) <= faults && (ok <==> faults == old(faults))
      ensures SameReplacements(old(entries), entries)
      ensures AllRecoverable(before, disk, entries)
      ensures ok ==> forall j :: 0 <= j < |entries| ==> InPlace(disk, entries[j])
    {
      hide Recoverable, Staged, InPlace, RolledBack, OriginalKept, OnlyEntriesTouched, StepOf, PathsSame, WellFormed;
      for i := 0 to |entries|
        invariant SameReplacements(old(entries), entries) && faults == old(faults)
        invariant AllRecoverable(before, disk, entries)
        invariant forall j :: 0 <= j < i ==> InPlace(disk, entries[j])
        invariant forall j :: i <= j < |entries| ==> Staged(before, disk, entries[j])
      {
        ghost var was, previous := disk, entries;
        var replaced := CommitEntry(before, i);
        StillWellFormed(previous, entries, i);
        TouchedSame(before, was, previous, entries, i);
        Framed(before, was, disk, entries, i);
        OthersAsBefore(before, was, disk, previous, entries, i);
        if !replaced { return false; }
      }
      ok := true;
    }

    method CommitEntry(ghost before: Disk, i: nat) returns (ok: bool)
      requires i < |entries| && Staged(before, disk, entries[i])
      modifies this`disk, this`entries, this`faults
      ensures old(faults) <= faults && (ok <==> faults == old(faults))
      ensures OnlyEntryChanged(old(entries), entries, i)
      ensures StepOf(old(disk), disk, entries[i])
      ensures Recoverable(before, disk, entries[i])
      ensures ok ==> InPlace(disk, entries[i])
    {
      if entries[i].hadOriginal {
        var moved := Rename(entries[i].Live(), entries[i].BackupPath());
        if !moved { return false; }
        entries := entries[i := entries[i].(originalMoved := true)];
      }
      entries := entries[i := entries[i].(replacementMayExist := true)];
      ok := Rename(entries[i].TemporaryPath(), entries[i].Live());
    }

    /** recoverEntries: undo each entry by its flags and by what is found on disk, then remove
        the staged files.  An entry whose title is not reported is back to what it was. */
    method Recover(ghost before: Disk)
      requires AllRecoverable(before, disk, entries) && failures == []
      modifies this
      ensures |failures| + old(faults) <= faults
      ensures SameReplacements(old(entries), entries)
      ensures WellFormed(entries) && OnlyEntriesTouched(before, disk, entries)
      ensures forall j :: 0 <= j < |entries| ==> OriginalKept(before, disk, entries[j].Live(), entries[j].BackupPath())
      ensures forall j :: 0 <= j < |entries| && !TitleFailed(failures, entries[j].replacement.title) ==>
                RolledBack(before, disk, entries[j]) && entries[j].TemporaryPath() !in disk
      ensures NeverBackupMissing(failures)
    {
      RollBackEntries(before);
      RemoveTemporaries(before);
    }

    method RollBackEntries(ghost before: Disk)
      requires AllRecoverable(before, disk, entries) && failures == []
      modifies this
      ensures |failures| + old(faults) <= faults
      ensures SameReplacements(old(entries), entries)
      ensures WellFormed(entries) && OnlyEntriesTouched(before, disk, entries)
      ensures forall j :: 0 <= j < |entries| ==> OriginalKept(before, disk, entries[j].Live(), entries[j].BackupPath())
      ensures forall j :: 0 <= j < |entries| && !TitleFailed(failures, entries[j].replacement.title) ==> RolledBack(before, disk, entries[j])
      ensures NeverBackupMissing(failures)
    {
      hide Recoverable, Staged, InPlace, RolledBack, OriginalKept, OnlyEntriesTouched, StepOf, PathsSame, WellFormed, TitleFailed;
      for i := 0 to |entries|
        invariant SameReplacements(old(entries), entries) && |failures| + old(faults) <= faults
        invariant WellFormed(entries) && OnlyEntriesTouched(before, disk, entries)
        invariant forall j :: 0 <= j < i ==> OriginalKept(before, disk, entries[j].Live(), entries[j].BackupPath())
        invariant forall j :: 0 <= j < i && !TitleFailed(failures, entries[j].replacement.title) ==> RolledBack(before, disk, entries[j])
        invariant forall j :: i <= j < |entries| ==> Recoverable(before, disk, entries[j])
        invariant NeverBackupMissing(failures)
      {
        ghost var was, reported, previous := disk, failures, entries;
        RecoverEntry(before, i);
        StillWellFormed(previous, entries, i);
        TouchedSame(before, was, previous, entries, i);
        Framed(before, was, disk, entries, i);
        OthersAsBefore(before, was, disk, previous, entries, i);
        FailuresGrow(reported, failures);
      }
    }

    method RemoveTemporaries(ghost before: Disk)
      requires WellFormed(entries) && OnlyEntriesTouched(before, disk, entries)
      requires forall j :: 0 <= j < |entries| ==> OriginalKept(before, disk, entries[j].Live(), entries[j].BackupPath())
      requires forall j :: 0 <= j < |entries| && !TitleFailed(failures, entries[j].replacement.title) ==> RolledBack(before, disk, entries[j])
      requires NeverBackupMissing(failures)
      modifies this`disk, this`failures, this`faults
      ensures |failures| + old(faults) <= |old(failures)| + faults
      ensures OnlyEntriesTouched(before, disk, entries)
      ensures forall j :: 0 <= j < |entries| ==> OriginalKept(before, disk, entries[j].Live(), entries[j].BackupPath())
      ensures forall j :: 0 <= j < |entries| && !TitleFailed(failures, entries[j].replacement.title) ==>
                RolledBack(before, disk, entries[j]) && entries[j].TemporaryPath() !in disk
      ensures NeverBackupMissing(failures)
    {
      hide RolledBack, OriginalKept, OnlyEntriesTouched, StepOf, PathsSame, WellFormed, TitleFailed, Same;
      for i := 0 to |entries|
        invariant OnlyEntriesTouched(before, disk, entries) && |failures| + old(faults) <= |old(failures)| + faults
        invariant forall j :: 0 <= j < |entries| ==> OriginalKept(before, disk, entries[j].Live(), entries[j].BackupPath())
        invariant forall j :: 0 <= j < |entries| && !TitleFailed(failures, entries[j].replacement.title) ==> RolledBack(before, disk, entries[j])
        invariant forall j :: 0 <= j < i && !TitleFailed(failures, entries[j].replacement.title) ==> entries[j].TemporaryPath() !in disk
        invariant NeverBackupMissing(failures)
      {
        ghost var was, reported := disk, failures;
        RemoveArtifact(i, RemoveTemporary, entries[i].TemporaryPath());
        TemporaryGone(before, was, disk, entries[i]);
        Framed(before, was, disk, entries, i);
        OthersAsBefore(before, was, disk, entries, entries, i);
        FailuresGrow(reported, failures);
      }
    }

    method RecoverEntry(ghost before: Disk, i: nat)
      requires i < |entries| && Recoverable(before, disk, entries[i])
      modifies this
      ensures |failures| + old(faults) <= |old(failures)| + faults
      ensures OnlyEntryChanged(old(entries), entries, i)
      ensures OriginalKept(before, disk, entries[i].Live(), entries[i].BackupPath())
      ensures StepOf(old(disk), disk, entries[i])
      ensures failures == old(failures)
              || (|failures| == |old(failures)| + 1 && failures[..|old(failures)|] == old(failures)
                  && failures[|old(failures)|].title == entries[i].replacement.title
                  && failures[|old(failures)|].code != BackupMissing)
      ensures failures == old(failures) ==> RolledBack(before, disk, entries[i])
    {
      var entry := entries[i];
      if entry.hadOriginal {
        var backupExists := ArtifactExists(entry.BackupPath());
        if backupExists {
          var restored := Rename(entry.BackupPath(), entry.Live());
          if restored {
            entries := entries[i := entry.(originalMoved := false)];
          } else {
            var backupRemains := ArtifactExists(entry.BackupPath());
            var targetExists := ArtifactExists(entry.Live());
            if !backupRemains && targetExists {
              entries := entries[i := entry.(originalMoved := false)];
            } else {
              failures := failures + [RecoveryFailure(Restore, entry.replacement.title, Reported)];
            }
          }
        } else {
          failures := failures +
            if entry.originalMoved then [RecoveryFailure(Restore, entry.replacement.title, BackupMissing)] else [];
        }
      } else if entry.replacementMayExist {
        var removed := Remove(entry.Live());
        var remains := false;
        if !removed { remains := ArtifactExists(entry.Live()); }
        if remains {
          failures := failures + [RecoveryFailure(RemoveReplacement, entry.replacement.title, Reported)];
        } else {
          entries := entries[i := entry.(replacementMayExist := false)];
        }
      }
    }

    /** One best-effort artifact removal: a failure is reported only when the artifact may remain. */
    method RemoveArtifact(i: nat, action: Action, path: Path)
      requires i < |entries|
      modifies this`disk, this`failures, this`faults
      ensures |failures| + old(faults) <= |old(failures)| + faults
      ensures disk == old(disk) || disk == old(disk) - {path}
      ensures failures == old(failures) || failures == old(failures) + [RecoveryFailure(action, entries[i].replacement.title, Reported)]
      ensures failures == old(failures) ==> path !in disk
    {
      var removed := Remove(path);
      if !removed {
        var remains := ArtifactExists(path);
        if remains {
          failures := failures + [RecoveryFailure(action, entries[i].replacement.title, Reported)];
        }
      }
    }

    /** cleanupCommittedEntries: the targets are final; only temporaries and backups go. */
    method CleanupCommitted()
      requires WellFormed(entries) && failures == []
      modifies this`disk, this`failures, this`faults
      ensures |failures| + old(faults) <= faults
      ensures OnlyArtifactsRemoved(old(disk), disk)
      ensures forall j :: 0 <= j < |entries| && !TitleFailed(failures, entries[j].replacement.title) ==>
                entries[j].TemporaryPath() !in disk && entries[j].BackupPath() !in disk
    {
      for i := 0 to |entries|
        invariant OnlyArtifactsRemoved(old(disk), disk) && |failures| + old(faults) <= faults
        invariant forall j :: 0 <= j < i && !TitleFailed(failures, entries[j].replacement.title) ==>
                    entries[j].TemporaryPath() !in disk && entries[j].BackupPath() !in disk
      {
        ghost var reported := failures;
        RemoveArtifact(i, RemoveTemporary, entries[i].TemporaryPath());
        ghost var reported' := failures;
        FailuresGrow(reported, reported');
        RemoveArtifact(i, RemoveBackup, entries[i].BackupPath());
        FailuresGrow(reported', failures);
      }
    }

    /** replaceFilesAtomically.  Each outcome is a claim about the whole disk. */
    method ReplaceFilesAtomically(replacements: seq<FileReplacement>) returns (outcome: Outcome)
      requires NoArtifacts(disk) && entries == [] && failures == []
      modifies this
      // Distinct targets are replaced unless the executor is at fault, and every failure that is
      // reported comes with a fault of its own, besides the one that stopped the transaction.
      ensures DistinctTargets(replacements) && outcome.Failed? ==> faults > old(faults)
      ensures outcome.Failed? ==> |outcome.failures| + old(faults) <= faults
      ensures outcome.Failed? && outcome.recovery.Incomplete? ==> |outcome.failures| + old(faults) < faults
      // A normal return: exactly the requested disk, with no artifact left.
      ensures outcome.Replaced? ==> disk == WithReplacements(old(disk), replacements)
      // "complete": the disk is what it was before the call.
      ensures outcome.Failed? && outcome.recovery.Complete? ==> disk == old(disk)
      // "committed": every target is new and every other file untouched; artifacts may remain.
      ensures outcome.Failed? && outcome.recovery.Committed? ==>
                forall p: Path {:trigger Same(WithReplacements(old(disk), replacements), disk, p)} ::
                  p.Target? ==> Same(WithReplacements(old(disk), replacements), disk, p)
      ensures outcome.Failed? && outcome.recovery.Committed? ==>
                forall j: nat :: j < |replacements| && !TitleFailed(outcome.failures, replacements[j].title) ==>
                  Temporary(j) !in disk && Backup(j) !in disk
      // "incomplete": every original survives, and an unreported target is fully restored.
      ensures outcome.Failed? && outcome.recovery.Incomplete? ==>
                outcome.failures != [] && RecoveredUnlessReported(old(disk), disk, replacements, outcome.failures)
      // No outcome touches a file that was not named, and BACKUP_MISSING is never reported.
      ensures OthersUntouched(old(disk), disk, replacements)
      ensures outcome.Failed? && !outcome.recovery.Committed? ==>
                NeverBackupMissing(outcome.failures)
      // Repeating a target is refused before anything is touched.
      ensures !DistinctTargets(replacements) ==> outcome == Failed(Complete, []) && disk == old(disk)
    {
      if !DistinctTargets(replacements) {
        return Failed(Complete, []);
      }
      ghost var before := disk;
      var ok := Stage(replacements);
      if ok {
        ok := Commit(before);
      }
      if !ok {
        Recover(before);
        UnnamedUntouched(before, disk, entries, replacements);
        if failures == [] {
          AllRolledBack(before, disk, entries);
          return Failed(Complete, failures);
        }
        EntriesRecovered(before, disk, entries, replacements, failures);
        return Failed(Incomplete, failures);
      }
      ghost var committed := disk;
      CleanupCommitted();
      TargetsReplaced(before, committed, disk, entries, replacements);
      if failures != [] {
        LeftoversReported(disk, entries, replacements, failures);
        return Failed(Committed, failures);
      }
      NothingReported(disk, entries, failures);
      ReplacedDisk(before, disk, entries, replacements);
      return Replaced;
    }
  }
}
