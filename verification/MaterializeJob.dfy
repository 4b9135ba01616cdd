/** A materialize run on values: entries, progress, and what is known of the disk while it runs. */
module MaterializeJob {
  import opened Base
  import opened Copy
  import opened Disk
  import opened Paths
  import opened Rollback
  import opened Tree

  datatype ConflictPolicy = Fail | Overwrite | Rename

  datatype Entry = Entry(relativePath: string, target: LocalPath, kind: NodeKind, size: U64, mode: nat)

  const PERMISSION_BITS: nat := 0x1000

  function EntryMode(e: Entry): nat {
    e.mode % PERMISSION_BITS
  }

  /** `validate_existing_materialize_target`: why an existing entry is in the way, if it is. */
  function Conflict(kind: NodeKind, node: Inode, policy: ConflictPolicy): Option<Status> {
    if node.SymlinkNode? then Some(InvalidArgument)
    else if !policy.Overwrite? then Some(AlreadyExists)
    else if kind.Directory? && node.DirectoryNode? then None
    else if kind.File? && node.FileNode? then None
    else Some(AlreadyExists)
  }

  // ---- entries by kind -----------------------------------------------------

  function OfKind(entries: seq<Entry>, kind: NodeKind): seq<Entry> {
    if entries == [] then []
    else OfKind(entries[..|entries| - 1], kind) + if entries[|entries| - 1].kind == kind then [entries[|entries| - 1]] else []
  }

  ghost predicate DistinctTargets(entries: seq<Entry>) {
    forall i, j :: 0 <= i < j < |entries| ==> entries[i].target != entries[j].target
  }

  ghost function Targets(entries: seq<Entry>): set<LocalPath> {
    set e | e in entries :: e.target
  }

  lemma {:induction false} OfKindMembers(entries: seq<Entry>, kind: NodeKind)
    ensures forall e :: e in OfKind(entries, kind) <==> e in entries && e.kind == kind
  {
    if entries != [] {
      OfKindMembers(entries[..|entries| - 1], kind);
      assert entries == entries[..|entries| - 1] + [entries[|entries| - 1]];
    }
  }

  lemma {:induction false} OfKindDistinct(entries: seq<Entry>, kind: NodeKind)
    requires DistinctTargets(entries)
    ensures DistinctTargets(OfKind(entries, kind))
  {
    if entries != [] {
      var init, last := entries[..|entries| - 1], entries[|entries| - 1];
      OfKindDistinct(init, kind);
      OfKindMembers(init, kind);
      forall e | e in OfKind(init, kind) ensures e.target != last.target {
        var i :| 0 <= i < |init| && init[i] == e;
        assert entries[i] == e;
      }
    }
  }

  lemma {:induction false} OfKindCount(entries: seq<Entry>)
    ensures |OfKind(entries, Directory)| + |OfKind(entries, File)| == |entries|
  {
    if entries != [] {
      OfKindCount(entries[..|entries| - 1]);
    }
  }

  lemma TargetsSnoc(entries: seq<Entry>, i: nat)
    requires i < |entries|
    ensures Targets(entries[..i + 1]) == Targets(entries[..i]) + {entries[i].target}
  {
    assert entries[..i + 1] == entries[..i] + [entries[i]];
  }

  lemma NotYetTarget(entries: seq<Entry>, i: nat)
    requires DistinctTargets(entries) && i < |entries|
    ensures entries[i].target !in Targets(entries[..i])
  {
  }

  /** An entry other than the first lies directly in the target of an earlier directory entry. */
  ghost predicate InEarlierDirectory(entries: seq<Entry>, i: nat)
    requires i < |entries|
  {
    exists j :: 0 <= j < i && entries[j].kind.Directory? && entries[i].target != [] && entries[j].target == ParentOf(entries[i].target)
  }

  /** The root comes first, targets are distinct, and parents precede children. */
  ghost predicate SoundPlan(root: LocalPath, entries: seq<Entry>) {
    && entries != [] && entries[0].target == root && DistinctTargets(entries)
    && forall i {:trigger InEarlierDirectory(entries, i)} :: 0 < i < |entries| ==> InEarlierDirectory(entries, i)
  }

  /** A target other than the root lies in the target of one of these directories. */
  ghost predicate InsideOne(dirs: seq<Entry>, e: Entry) {
    e.target != [] && exists d :: d in dirs && d.target == ParentOf(e.target)
  }

  lemma SoundPrefix(root: LocalPath, entries: seq<Entry>)
    requires SoundPlan(root, entries) && |entries| > 1
    ensures SoundPlan(root, entries[..|entries| - 1])
  {
    var init := entries[..|entries| - 1];
    forall i {:trigger InEarlierDirectory(init, i)} | 0 < i < |init| ensures InEarlierDirectory(init, i) {
      assert InEarlierDirectory(entries, i);
      var j :| 0 <= j < i && entries[j].kind.Directory? && entries[i].target != [] && entries[j].target == ParentOf(entries[i].target);
      assert init[j] == entries[j] && init[i] == entries[i];
    }
  }

  /** The directory that holds the last entry comes earlier. */
  lemma LastInside(root: LocalPath, entries: seq<Entry>)
    requires SoundPlan(root, entries) && |entries| > 1
    ensures InsideOne(OfKind(entries[..|entries| - 1], Directory), entries[|entries| - 1])
  {
    var init, last := entries[..|entries| - 1], entries[|entries| - 1];
    OfKindMembers(init, Directory);
    assert InEarlierDirectory(entries, |entries| - 1);
    var j :| 0 <= j < |init| && entries[j].kind.Directory? && last.target != [] && entries[j].target == ParentOf(last.target);
    assert init[j] == entries[j] && init[j] in OfKind(init, Directory);
  }

  /** Directories alone still come parents first. */
  lemma {:induction false} DirectoriesNested(root: LocalPath, entries: seq<Entry>, i: nat)
    requires SoundPlan(root, entries) && i < |OfKind(entries, Directory)|
    ensures var dirs := OfKind(entries, Directory);
            dirs[i].target == root || InsideOne(dirs[..i], dirs[i])
  {
    var init := entries[..|entries| - 1];
    var dirs, before := OfKind(entries, Directory), OfKind(init, Directory);
    if |entries| > 1 {
      SoundPrefix(root, entries);
      if i < |before| {
        DirectoriesNested(root, init, i);
        assert dirs[i] == before[i] && dirs[..i] == before[..i];
      } else {
        LastInside(root, entries);
        assert dirs[..i] == before;
      }
    } else {
      assert init == [];
    }
  }

  /** Every entry but the root lies in one of the directories. */
  lemma {:induction false} EntryInside(root: LocalPath, entries: seq<Entry>, i: nat)
    requires SoundPlan(root, entries) && i < |entries|
    ensures entries[i].target == root || InsideOne(OfKind(entries, Directory), entries[i])
  {
    if |entries| > 1 {
      var init := entries[..|entries| - 1];
      SoundPrefix(root, entries);
      if i < |init| {
        EntryInside(root, init, i);
      } else {
        LastInside(root, entries);
      }
      if entries[i].target != root {
        var d :| d in OfKind(init, Directory) && d.target == ParentOf(entries[i].target);
        assert d in OfKind(entries, Directory);
      }
    }
  }

  // ---- progress ------------------------------------------------------------

  /** The counters; each stays at most its total, so 64 bits suffice whenever the totals fit. */
  datatype Progress = Progress(
    entriesDone: nat,
    entriesTotal: nat,
    bytesWritten: nat,
    bytesTotal: nat,
    filesWritten: nat,
    filesTotal: nat,
    directoriesCreated: nat,
    directoriesTotal: nat)

  function SizeSum(entries: seq<Entry>): nat {
    if entries == [] then 0 else SizeSum(entries[..|entries| - 1]) + entries[|entries| - 1].size
  }

  lemma {:induction false} SizeSumPrefix(entries: seq<Entry>, i: nat)
    requires i <= |entries|
    ensures SizeSum(entries[..i]) <= SizeSum(entries)
    ensures i < |entries| ==> SizeSum(entries[..i]) + entries[i].size == SizeSum(entries[..i + 1]) <= SizeSum(entries)
    decreases |entries| - i
  {
    if i < |entries| {
      SizeSumPrefix(entries, i + 1);
      assert entries[..i + 1][..i] == entries[..i];
    } else {
      assert entries[..i] == entries;
    }
  }

  function FreshProgress(entries: seq<Entry>): Progress {
    var files, directories := OfKind(entries, File), OfKind(entries, Directory);
    Progress(0, |entries|, 0, SizeSum(files), 0, |files|, 0, |directories|)
  }

  /** The counters at the start, the files in order, and whether every directory is to be made anew. */
  datatype Tally = Tally(start: Progress, files: seq<Entry>, strict: bool)

  predicate TallyValid(k: Tally) {
    k.start == Progress(0, |k.files| + k.start.directoriesTotal, 0, SizeSum(k.files), 0, |k.files|, 0, k.start.directoriesTotal)
  }

  function TallyOf(entries: seq<Entry>, policy: ConflictPolicy): Tally {
    Tally(FreshProgress(entries), OfKind(entries, File), !policy.Overwrite?)
  }

  lemma TallyOfValid(entries: seq<Entry>, policy: ConflictPolicy)
    ensures TallyValid(TallyOf(entries, policy))
  {
    OfKindCount(entries);
  }

  predicate Within(p: Progress) {
    && p.entriesDone <= p.entriesTotal && p.bytesWritten <= p.bytesTotal
    && p.filesWritten <= p.filesTotal && p.directoriesCreated <= p.directoriesTotal
  }

  /** Entries done are the files written plus the directories handled, and directories come first. */
  predicate Balanced(p: Progress) {
    && p.entriesTotal == p.filesTotal + p.directoriesTotal && p.directoriesCreated <= p.entriesDone
    && (p.entriesDone == p.directoriesTotal + p.filesWritten
        || (p.entriesDone < p.directoriesTotal && p.filesWritten == 0 && p.bytesWritten == 0))
  }

  predicate Fine(p: Progress) {
    Within(p) && Balanced(p)
  }

  predicate Advances(p: Progress, q: Progress) {
    && p.entriesTotal == q.entriesTotal && p.bytesTotal == q.bytesTotal
    && p.filesTotal == q.filesTotal && p.directoriesTotal == q.directoriesTotal
    && p.entriesDone <= q.entriesDone && p.bytesWritten <= q.bytesWritten
    && p.filesWritten <= q.filesWritten && p.directoriesCreated <= q.directoriesCreated
  }

  /** Every report is in bounds and balanced, and no counter ever decreases up to the present `p`. */
  ghost predicate History(reports: seq<Progress>, p: Progress) {
    && (forall i {:trigger reports[i]} :: 0 <= i < |reports| ==> Fine(reports[i]) && Advances(reports[i], p))
    && (forall i, j {:trigger reports[i], reports[j]} :: 0 <= i < j < |reports| ==> Advances(reports[i], reports[j]))
    && Fine(p)
  }

  lemma HistoryAdvances(reports: seq<Progress>, p: Progress, q: Progress)
    requires History(reports, p) && Advances(p, q) && Fine(q)
    ensures History(reports, q) && History(reports + [q], q)
  {
  }

  // ---- the job -------------------------------------------------------------

  /** The disk at the start, the planned entries, the policy, and where bytes come from. */
  datatype Job = Job(before: Nodes, entries: seq<Entry>, policy: ConflictPolicy, read: Reader)

  /** The node holds the whole new content of the entry. */
  ghost predicate HoldsCopy(job: Job, e: Entry, node: Inode) {
    node.FileNode? && CopyFrom(job.read, e.relativePath, e.size, 0) == Ok(node.content)
  }

  ghost predicate Replacement(job: Job, p: LocalPath, node: Inode) {
    exists e :: e in job.entries && e.kind.File? && e.target == p && HoldsCopy(job, e, node)
  }

  /** The directory `p` has the mode that an entry declares for it. */
  ghost predicate Redeclared(job: Job, p: LocalPath, node: Inode)
    requires p in job.before && job.before[p].DirectoryNode?
  {
    exists e :: e in job.entries && e.kind.Directory? && e.target == p && node == DirectoryNode(job.before[p].id, EntryMode(e))
  }

  /** An old entry is as it was; under Overwrite a file may hold a whole new copy and a directory its declared mode. */
  ghost predicate OldOrNew(job: Job, now: Nodes, p: LocalPath)
    requires p in job.before
  {
    && p in now
    && (|| now[p] == job.before[p]
        || (job.policy.Overwrite? && job.before[p].FileNode? && Replacement(job, p, now[p]))
        || (job.policy.Overwrite? && job.before[p].DirectoryNode? && Redeclared(job, p, now[p])))
  }

  ghost predicate OldEntriesWhole(job: Job, now: Nodes) {
    forall p {:trigger OldOrNew(job, now, p)} :: p in job.before ==> OldOrNew(job, now, p)
  }

  ghost predicate DirectoriesInPlace(now: Nodes, created: seq<CreatedTarget>) {
    forall t :: t in created && t.isDirectory ==> InPlace(now, t)
  }

  /** What holds between steps while directories and files are made. */
  ghost predicate Safe(job: Job, now: Nodes, created: seq<CreatedTarget>) {
    && DiskValid(job.before) && Undoable(job.before, now, created) && DirectoriesSame(job.before, now)
    && OldEntriesWhole(job, now) && DirectoriesInPlace(now, created) && MadeOpen(now, created)
  }

  /** A made entry that was not recorded, because its identity could not be read. */
  ghost predicate StrayLeft(job: Job, now: Nodes, created: seq<CreatedTarget>, stray: set<LocalPath>) {
    && (exists p :: p in stray)
    && forall p :: p in stray ==> p in now && p !in job.before && p !in NewPaths(created)
  }

  /** Away from the handled targets the disk is as it was. */
  ghost predicate OthersSame(job: Job, now: Nodes, handled: set<LocalPath>) {
    && (forall p :: p !in handled ==> (p in now <==> p in job.before))
    && (forall p :: p !in handled && p in job.before ==> now[p] == job.before[p])
  }

  ghost predicate FilePlaced(job: Job, now: Nodes, e: Entry) {
    e.target in now && HoldsCopy(job, e, now[e.target]) && now[e.target].mode == EntryMode(e)
  }

  ghost predicate DirectoryPlaced(now: Nodes, e: Entry) {
    e.target in now && now[e.target].DirectoryNode? && now[e.target].mode == EntryMode(e)
  }

  /** The outcome of a successful run: every entry is in place and nothing else changed. */
  ghost predicate Placed(job: Job, now: Nodes) {
    && (forall e :: e in job.entries ==> if e.kind.File? then FilePlaced(job, now, e) else DirectoryPlaced(now, e))
    && OthersSame(job, now, Targets(job.entries))
  }

  // ---- what the steps keep -------------------------------------------------

  lemma SafeStart(job: Job)
    requires DiskValid(job.before)
    ensures Safe(job, job.before, [])
  {
    assert NewPaths([]) == {};
  }

  lemma SafeCreate(job: Job, now: Nodes, created: seq<CreatedTarget>, t: CreatedTarget, node: Inode)
    requires Safe(job, now, created)
    requires t.removable && t.path !in now && Editable(now, t.path) && InPlace(now[t.path := node], t)
    requires node.DirectoryNode? ==> node.mode == PRIVATE_DIRECTORY
    ensures Safe(job, now[t.path := node], created + [t])
  {
    CreateUndoable(job.before, now, created, t, node);
    forall d {:trigger MadeDirectory(created + [t], d)} | MadeDirectory(created + [t], d) && d != t.path ensures MadeDirectory(created, d) {
    }
    forall p {:trigger OldOrNew(job, now[t.path := node], p)} | p in job.before ensures OldOrNew(job, now[t.path := node], p) {
      assert OldOrNew(job, now, p);
    }
  }

  lemma SafeTakeOver(job: Job, now: Nodes, created: seq<CreatedTarget>, t: CreatedTarget)
    requires Safe(job, now, created) && !t.removable && InPlace(now, t)
    ensures Safe(job, now, created + [t])
  {
    TakeOverUndoable(job.before, now, created, t);
    forall d {:trigger MadeDirectory(created + [t], d)} | MadeDirectory(created + [t], d) ensures MadeDirectory(created, d) {
    }
  }

  lemma SafeUpdate(job: Job, now: Nodes, created: seq<CreatedTarget>, p: LocalPath, node: Inode)
    requires Safe(job, now, created) && p in now && p !in job.before && now[p].FileNode? && node.FileNode? && node.id == now[p].id
    ensures Safe(job, now[p := node], created)
  {
    UpdateUndoable(job.before, now, created, p, node);
    forall q {:trigger DirectorySame(job.before, now[p := node], q)} | q in job.before ensures DirectorySame(job.before, now[p := node], q) {
      assert DirectorySame(job.before, now, q);
    }
    forall q {:trigger OldOrNew(job, now[p := node], q)} | q in job.before ensures OldOrNew(job, now[p := node], q) {
      assert OldOrNew(job, now, q);
    }
  }

  lemma StrayIsLeft(job: Job, now: Nodes, created: seq<CreatedTarget>, p: LocalPath, node: Inode)
    requires Safe(job, now, created) && p !in now
    ensures StrayLeft(job, now[p := node], created, {p})
  {
    assert p in {p};
  }

  /** Renaming a complete temporary copy over an old file. */
  lemma SafeReplace(job: Job, now: Nodes, created: seq<CreatedTarget>, temp: CreatedTarget, e: Entry)
    requires Safe(job, now, created + [temp]) && temp.removable && !temp.isDirectory && job.policy.Overwrite?
    requires e in job.entries && e.kind.File? && e.target in job.before && job.before[e.target].FileNode?
    requires temp.path in now && HoldsCopy(job, e, now[temp.path])
    ensures Safe(job, (now - {temp.path})[e.target := now[temp.path]], created + [CreatedTarget(e.target, temp.identity, false, false)])
  {
    var t := CreatedTarget(e.target, temp.identity, false, false);
    var next := (now - {temp.path})[e.target := now[temp.path]];
    ReplaceUndoable(job.before, now, created, temp, e.target, t);
    assert temp in created + [temp];
    NewNotOld(job.before, now, created + [temp], temp.path);
    forall q {:trigger DirectorySame(job.before, next, q)} | q in job.before ensures DirectorySame(job.before, next, q) {
      assert DirectorySame(job.before, now, q);
    }
    forall q {:trigger OldOrNew(job, next, q)} | q in job.before ensures OldOrNew(job, next, q) {
      assert OldOrNew(job, now, q);
    }
    assert DirectorySame(job.before, now, e.target);
    TempIsFile(job.before, now, created, temp);
    forall u | u in created + [t] && u.isDirectory ensures InPlace(next, u) {
      assert u in created + [temp] && InPlace(now, u);
    }
    forall d {:trigger MadeDirectory(created + [t], d)} | MadeDirectory(created + [t], d)
      ensures d in next && next[d].DirectoryNode? && next[d].mode == PRIVATE_DIRECTORY
    {
      assert MadeDirectory(created + [temp], d);
    }
  }

  lemma TempIsFile(before: Nodes, now: Nodes, created: seq<CreatedTarget>, temp: CreatedTarget)
    requires Undoable(before, now, created + [temp]) && temp.removable && !temp.isDirectory
    ensures temp.path in now && now[temp.path].FileNode?
  {
    assert TargetOk(before, now, created + [temp], |created|);
  }

  // ---- the loops -----------------------------------------------------------

  ghost predicate SameExcept(a: Nodes, b: Nodes, p: LocalPath) {
    && (forall q :: q != p ==> (q in a <==> q in b))
    && (forall q :: q != p && q in a ==> a[q] == b[q])
  }

  lemma OthersSameStep(job: Job, a: Nodes, b: Nodes, handled: set<LocalPath>, p: LocalPath)
    requires OthersSame(job, a, handled) && SameExcept(a, b, p)
    ensures OthersSame(job, b, handled + {p})
  {
  }

  ghost predicate DirectoryReady(now: Nodes, created: seq<CreatedTarget>, e: Entry) {
    && e.target in now && now[e.target].DirectoryNode?
    && exists t :: t in created && t.isDirectory && t.path == e.target
  }

  /** The first `i` directories are there, recorded, and nothing but them has been touched. */
  ghost predicate DirectoriesDone(job: Job, now: Nodes, created: seq<CreatedTarget>, dirs: seq<Entry>, i: nat)
    requires i <= |dirs|
  {
    && Safe(job, now, created) && OnlyOldTakenOver(job, created)
    && NewPaths(created) <= Targets(dirs[..i]) && OthersSame(job, now, Targets(dirs[..i]))
    && forall j {:trigger dirs[j]} :: 0 <= j < i ==> DirectoryReady(now, created, dirs[j])
  }

  lemma DirectoriesDoneStep(job: Job, a: Nodes, b: Nodes, created: seq<CreatedTarget>, t: CreatedTarget, dirs: seq<Entry>, i: nat)
    requires i < |dirs| && DistinctTargets(dirs) && DirectoriesDone(job, a, created, dirs, i)
    requires Safe(job, b, created + [t]) && SameExcept(a, b, dirs[i].target)
    requires t.path == dirs[i].target && t.isDirectory && (t.removable || (job.policy.Overwrite? && t.path in a))
    requires t.path in b && b[t.path].DirectoryNode?
    ensures DirectoriesDone(job, b, created + [t], dirs, i + 1)
  {
    TargetsSnoc(dirs, i);
    NewPathsSnoc(created, t);
    OthersSameStep(job, a, b, Targets(dirs[..i]), dirs[i].target);
    forall j {:trigger dirs[j]} | 0 <= j < i + 1 ensures DirectoryReady(b, created + [t], dirs[j]) {
      if j < i {
        var u :| u in created && u.isDirectory && u.path == dirs[j].target;
        assert u in created + [t];
      } else {
        assert t in created + [t];
      }
    }
  }

  predicate DirectoryProgress(k: Tally, i: nat, p: Progress) {
    && p == k.start.(entriesDone := i, directoriesCreated := p.directoriesCreated)
    && p.directoriesCreated <= i && (k.strict ==> p.directoriesCreated == i)
  }

  lemma DirectoryProgressFine(k: Tally, i: nat, p: Progress)
    requires TallyValid(k) && DirectoryProgress(k, i, p) && i <= k.start.directoriesTotal
    ensures Fine(p)
  {
  }

  /** All directories are there, and so are the first `i` files. */
  ghost predicate FilesDone(job: Job, now: Nodes, created: seq<CreatedTarget>, dirs: seq<Entry>, files: seq<Entry>, i: nat)
    requires i <= |files|
  {
    && Safe(job, now, created) && OnlyOldTakenOver(job, created)
    && NewPaths(created) <= Targets(dirs) + Targets(files[..i])
    && OthersSame(job, now, Targets(dirs) + Targets(files[..i]))
    && (forall j {:trigger dirs[j]} :: 0 <= j < |dirs| ==> DirectoryReady(now, created, dirs[j]))
    && (forall j {:trigger files[j]} :: 0 <= j < i ==> FilePlaced(job, now, files[j]))
  }

  ghost predicate Apart(dirs: seq<Entry>, files: seq<Entry>) {
    forall d, f :: d in dirs && f in files ==> d.target != f.target
  }

  lemma FilesDoneStep(job: Job, a: Nodes, b: Nodes, created: seq<CreatedTarget>, t: CreatedTarget, dirs: seq<Entry>, files: seq<Entry>, i: nat)
    requires i < |files| && DistinctTargets(files) && Apart(dirs, files) && FilesDone(job, a, created, dirs, files, i)
    requires Safe(job, b, created + [t]) && SameExcept(a, b, files[i].target)
    requires t.path == files[i].target && (t.removable || (job.policy.Overwrite? && t.path in job.before)) && FilePlaced(job, b, files[i])
    ensures FilesDone(job, b, created + [t], dirs, files, i + 1)
  {
    TargetsSnoc(files, i);
    NewPathsSnoc(created, t);
    OthersSameStep(job, a, b, Targets(dirs) + Targets(files[..i]), files[i].target);
    assert Targets(dirs) + Targets(files[..i]) + {files[i].target} == Targets(dirs) + Targets(files[..i + 1]);
    forall j {:trigger dirs[j]} | 0 <= j < |dirs| ensures DirectoryReady(b, created + [t], dirs[j]) {
      assert DirectoryReady(a, created, dirs[j]);
      assert dirs[j] in dirs && files[i] in files;
    }
    forall j {:trigger files[j]} | 0 <= j < i + 1 ensures FilePlaced(job, b, files[j]) {
      if j < i {
        assert FilePlaced(job, a, files[j]);
      }
    }
  }

  predicate FileProgress(k: Tally, i: nat, offset: nat, p: Progress)
    requires i <= |k.files|
  {
    var dirs := k.start.directoriesTotal;
    && p == k.start.(entriesDone := dirs + i, filesWritten := i, bytesWritten := SizeSum(k.files[..i]) + offset,
                     directoriesCreated := p.directoriesCreated)
    && p.directoriesCreated <= dirs && (k.strict ==> p.directoriesCreated == dirs)
    && (if i < |k.files| then offset <= k.files[i].size else offset == 0)
  }

  lemma FileProgressFine(k: Tally, i: nat, offset: nat, p: Progress)
    requires TallyValid(k) && i <= |k.files| && FileProgress(k, i, offset, p)
    ensures Fine(p)
  {
    SizeSumPrefix(k.files, i);
  }

  lemma FilesStart(job: Job, now: Nodes, created: seq<CreatedTarget>, dirs: seq<Entry>, files: seq<Entry>)
    requires DirectoriesDone(job, now, created, dirs, |dirs|)
    ensures FilesDone(job, now, created, dirs, files, 0)
  {
    assert dirs[..|dirs|] == dirs && Targets(files[..0]) == {};
    assert Targets(dirs) + {} == Targets(dirs);
  }

  // ---- when nothing goes wrong ---------------------------------------------

  const TEMP_ATTEMPTS: nat := 16

  /** `materialize_temp_path`. */
  function TempPath(processId: nat, counter: nat, target: LocalPath): LocalPath
    requires target != []
  {
    ParentOf(target) + ["." + target[|target| - 1] + ".fuse-promise-tmp-" + Decimal(processId) + "-" + Decimal(counter)]
  }

  /** Counting from `counter`, one of the names that are tried for a temporary file is free. */
  ghost predicate TempFreeFrom(taken: set<LocalPath>, processId: nat, target: LocalPath, counter: nat)
    requires target != []
  {
    exists n :: counter <= n < counter + TEMP_ATTEMPTS && TempPath(processId, n, target) !in taken
  }

  ghost predicate TempsFree(taken: set<LocalPath>, processId: nat, target: LocalPath)
    requires target != []
  {
    forall counter: nat {:trigger TempFreeFrom(taken, processId, target, counter)} :: TempFreeFrom(taken, processId, target, counter)
  }

  /** The entry can be made, or takes over or replaces what is there. */
  ghost predicate Admits(now: Nodes, e: Entry, policy: ConflictPolicy, processId: nat) {
    if e.target !in now then Editable(now, e.target)
    else
      && Conflict(e.kind, now[e.target], policy).None?
      && (e.kind.File? ==> Editable(now, e.target) && TempsFree(now.Keys, processId, e.target))
  }

  /** Every file can be copied to its end. */
  ghost predicate AllReadable(entries: seq<Entry>, read: Reader) {
    forall e :: e in entries && e.kind.File? ==> CopyFrom(read, e.relativePath, e.size, 0).Ok?
  }

  /** The entry lies at the root target or directly in an old directory. */
  ghost predicate AtOldDirectory(job: Job, root: LocalPath, e: Entry) {
    e.target == root || (e.target != [] && ParentOf(e.target) in job.before)
  }

  /**
    What an entry needs of the disk at the start: nothing of another kind in its place, an old
    directory that lets it be made or replaced, and a free temporary name if it replaces a file.
   */
  ghost predicate Welcome(job: Job, root: LocalPath, processId: nat, e: Entry) {
    && (e.target in job.before ==> Conflict(e.kind, job.before[e.target], job.policy).None?)
    && ((e.kind.File? || e.target !in job.before) && AtOldDirectory(job, root, e) ==> Editable(job.before, e.target))
    && (e.kind.File? && e.target in job.before ==>
         e.target != [] && TempsFree(job.before.Keys + Targets(job.entries), processId, e.target))
  }

  /** Nothing is in the way of a sound plan, and every file can be copied. */
  ghost predicate Favourable(job: Job, root: LocalPath, processId: nat) {
    && SoundPlan(root, job.entries) && AllReadable(job.entries, job.read)
    && forall e {:trigger Welcome(job, root, processId, e)} :: e in job.entries ==> Welcome(job, root, processId, e)
  }

  lemma {:induction false} TargetsFree(before: Nodes, entries: seq<Entry>, root: LocalPath, i: nat)
    requires DiskValid(before) && SoundPlan(root, entries) && root !in before && i < |entries|
    ensures entries[i].target !in before
  {
    if i > 0 {
      assert InEarlierDirectory(entries, i);
      var j :| 0 <= j < i && entries[j].kind.Directory? && entries[i].target != [] && entries[j].target == ParentOf(entries[i].target);
      TargetsFree(before, entries, root, j);
      assert entries[i].target in before ==> Hung(before, entries[i].target);
    }
  }

  /** With any policy, a sound plan at a free root in an open directory is favourable if its files can be copied. */
  lemma FreeRootIsFavourable(job: Job, root: LocalPath, processId: nat)
    requires DiskValid(job.before) && SoundPlan(root, job.entries) && root !in job.before && Editable(job.before, root)
    requires AllReadable(job.entries, job.read)
    ensures Favourable(job, root, processId)
  {
    forall e {:trigger Welcome(job, root, processId, e)} | e in job.entries ensures Welcome(job, root, processId, e) {
      var i :| 0 <= i < |job.entries| && job.entries[i] == e;
      TargetsFree(job.before, job.entries, root, i);
      if i > 0 {
        assert InEarlierDirectory(job.entries, i);
        var j :| 0 <= j < i && job.entries[j].kind.Directory? && e.target != [] && job.entries[j].target == ParentOf(e.target);
        TargetsFree(job.before, job.entries, root, j);
      }
    }
  }

  /** In an old directory that allows it, and below an open made one, a new entry may be made. */
  lemma RoomFor(job: Job, root: LocalPath, processId: nat, now: Nodes, created: seq<CreatedTarget>, dirs: seq<Entry>, e: Entry)
    requires Safe(job, now, created) && OnlyOldTakenOver(job, created) && Welcome(job, root, processId, e)
    requires forall d :: d in dirs ==> DirectoryReady(now, created, d)
    requires e.target == root || InsideOne(dirs, e)
    requires e.kind.File? || e.target !in job.before
    ensures Editable(now, e.target)
  {
    SameKeepsAccess(job.before, now);
    if AtOldDirectory(job, root, e) {
      ReachableKept(job.before, now, e.target);
      assert StillOpen(job.before, now, ParentOf(e.target));
    } else {
      RoomInMade(job, now, created, dirs, e);
    }
  }

  lemma RoomInMade(job: Job, now: Nodes, created: seq<CreatedTarget>, dirs: seq<Entry>, e: Entry)
    requires Safe(job, now, created) && OnlyOldTakenOver(job, created) && AccessKept(job.before, now)
    requires forall d :: d in dirs ==> DirectoryReady(now, created, d)
    requires InsideOne(dirs, e) && ParentOf(e.target) !in job.before
    ensures Editable(now, e.target)
  {
    var d :| d in dirs && d.target == ParentOf(e.target);
    assert DirectoryReady(now, created, d);
    var t :| t in created && t.isDirectory && t.path == d.target;
    var i :| 0 <= i < |created| && created[i] == t;
    assert MadeDirectory(created, d.target);
    AccessIsWorkable(job.before, now, created);
    assert created[..|created|] == created;
    MadeOpenPrefix(now, created, i, |created|);
    TargetReachable(job.before, now, created, i);
  }

  /** Names that were free of old entries and targets are still free. */
  lemma TempsStayFree(job: Job, now: Nodes, created: seq<CreatedTarget>, processId: nat, target: LocalPath)
    requires Undoable(job.before, now, created) && NewPaths(created) <= Targets(job.entries) && target != []
    requires TempsFree(job.before.Keys + Targets(job.entries), processId, target)
    ensures TempsFree(now.Keys, processId, target)
  {
    forall counter: nat {:trigger TempFreeFrom(now.Keys, processId, target, counter)}
      ensures TempFreeFrom(now.Keys, processId, target, counter)
    {
      assert TempFreeFrom(job.before.Keys + Targets(job.entries), processId, target, counter);
      var n :| counter <= n < counter + TEMP_ATTEMPTS && TempPath(processId, n, target) !in job.before.Keys + Targets(job.entries);
      assert TempPath(processId, n, target) !in now.Keys;
    }
  }

  lemma NextDirectoryFits(job: Job, root: LocalPath, processId: nat, now: Nodes, created: seq<CreatedTarget>, dirs: seq<Entry>, i: nat)
    requires dirs == OfKind(job.entries, Directory) && i < |dirs| && DirectoriesDone(job, now, created, dirs, i)
    requires Favourable(job, root, processId)
    ensures Admits(now, dirs[i], job.policy, processId)
  {
    DirectoriesNested(root, job.entries, i);
    OfKindMembers(job.entries, Directory);
    OfKindDistinct(job.entries, Directory);
    assert dirs[i] in dirs;
    assert Welcome(job, root, processId, dirs[i]);
    NotYetTarget(dirs, i);
    if dirs[i].target !in now {
      forall d | d in dirs[..i] ensures DirectoryReady(now, created, d) {
        var j :| 0 <= j < i && dirs[j] == d;
      }
      RoomFor(job, root, processId, now, created, dirs[..i], dirs[i]);
    }
  }

  lemma NextFileFits(job: Job, root: LocalPath, processId: nat, now: Nodes, created: seq<CreatedTarget>, dirs: seq<Entry>, files: seq<Entry>, i: nat)
    requires dirs == OfKind(job.entries, Directory) && files == OfKind(job.entries, File) && i < |files|
    requires FilesDone(job, now, created, dirs, files, i) && Favourable(job, root, processId)
    ensures Admits(now, files[i], job.policy, processId)
  {
    OfKindMembers(job.entries, File);
    assert files[i] in files;
    var m :| 0 <= m < |job.entries| && job.entries[m] == files[i];
    EntryInside(root, job.entries, m);
    assert Welcome(job, root, processId, files[i]);
    NotHandledYet(job, dirs, files, i);
    forall d | d in dirs ensures DirectoryReady(now, created, d) {
      var j :| 0 <= j < |dirs| && dirs[j] == d;
    }
    RoomFor(job, root, processId, now, created, dirs, files[i]);
    if files[i].target in now {
      DoneAreTargets(job, dirs, files, i);
      TempsStayFree(job, now, created, processId, files[i].target);
    }
  }

  lemma NotHandledYet(job: Job, dirs: seq<Entry>, files: seq<Entry>, i: nat)
    requires DistinctTargets(job.entries) && dirs == OfKind(job.entries, Directory) && files == OfKind(job.entries, File) && i < |files|
    ensures files[i].target !in Targets(dirs) + Targets(files[..i])
  {
    OfKindDistinct(job.entries, File);
    KindsApart(job.entries);
    NotYetTarget(files, i);
    assert files[i] in files;
  }

  lemma DoneAreTargets(job: Job, dirs: seq<Entry>, files: seq<Entry>, i: nat)
    requires dirs == OfKind(job.entries, Directory) && files == OfKind(job.entries, File) && i <= |files|
    ensures Targets(dirs) + Targets(files[..i]) <= Targets(job.entries)
  {
    OfKindMembers(job.entries, Directory);
    OfKindMembers(job.entries, File);
  }

  // ---- directory metadata and the end of a run -----------------------------

  /** Only directories that were there before are taken over, and only under Overwrite. */
  ghost predicate OnlyOldTakenOver(job: Job, created: seq<CreatedTarget>) {
    forall t :: t in created && !t.removable ==> job.policy.Overwrite? && t.path in job.before
  }

  /** The mode that the entries declare for a directory, if they do. */
  function DeclaredMode(entries: seq<Entry>, p: LocalPath): Option<nat> {
    if entries == [] then None
    else
      var last := entries[|entries| - 1];
      if last.kind.Directory? && last.target == p then Some(EntryMode(last)) else DeclaredMode(entries[..|entries| - 1], p)
  }

  lemma {:induction false} DeclaredModeOf(entries: seq<Entry>, e: Entry)
    requires DistinctTargets(entries) && e in entries && e.kind.Directory?
    ensures DeclaredMode(entries, e.target) == Some(EntryMode(e))
  {
    var init, last := entries[..|entries| - 1], entries[|entries| - 1];
    if e != last {
      var i :| 0 <= i < |entries| && entries[i] == e;
      assert init[i] == e;
      DeclaredModeOf(init, e);
    }
  }

  lemma {:induction false} DeclaredModeFrom(entries: seq<Entry>, p: LocalPath)
    requires DeclaredMode(entries, p).Some?
    ensures exists e :: e in entries && e.kind.Directory? && e.target == p
  {
    var init, last := entries[..|entries| - 1], entries[|entries| - 1];
    if last.kind.Directory? && last.target == p {
      assert last in entries;
    } else {
      DeclaredModeFrom(init, p);
      var e :| e in init && e.kind.Directory? && e.target == p;
      assert e in entries;
    }
  }

  /** An old directory as a complete run leaves it: under Overwrite with its declared mode, if it is reused. */
  function DeclaredNode(job: Job, p: LocalPath): Inode
    requires p in job.before
  {
    var node, mode := job.before[p], DeclaredMode(job.entries, p);
    if job.policy.Overwrite? && node.DirectoryNode? && mode.Some? then DirectoryNode(node.id, mode.value) else node
  }

  ghost function Declared(job: Job): Nodes {
    map p | p in job.before :: DeclaredNode(job, p)
  }

  /** A new entry in an old directory could be removed again if every reused directory had its declared mode. */
  ghost predicate EntryStaysOpen(job: Job, e: Entry) {
    e.target !in job.before && e.target != [] && ParentOf(e.target) in job.before && Editable(job.before, e.target) ==>
      Editable(Declared(job), e.target)
  }

  /** No reused directory is declared with a mode that shuts its owner out from something new in it or below it. */
  ghost predicate StaysOpen(job: Job) {
    forall e {:trigger EntryStaysOpen(job, e)} :: e in job.entries ==> EntryStaysOpen(job, e)
  }

  lemma WithoutOverwriteStaysOpen(job: Job)
    requires !job.policy.Overwrite?
    ensures StaysOpen(job)
  {
    assert Declared(job) == job.before;
  }

  /** What holds while directory metadata is applied. */
  ghost predicate Settled(job: Job, now: Nodes, created: seq<CreatedTarget>) {
    && DiskValid(job.before) && Undoable(job.before, now, created) && OldEntriesWhole(job, now)
    && DirectoriesInPlace(now, created) && OnlyOldTakenOver(job, created)
    && (StaysOpen(job) ==> Workable(job.before, now, created))
  }

  lemma SafeIsSettled(job: Job, now: Nodes, created: seq<CreatedTarget>)
    requires Safe(job, now, created) && OnlyOldTakenOver(job, created)
    ensures Settled(job, now, created)
  {
    SameKeepsAccess(job.before, now);
    AccessIsWorkable(job.before, now, created);
  }

  // Old directories between their old and their declared modes

  lemma OldOrDeclared(job: Job, now: Nodes, p: LocalPath)
    requires DistinctTargets(job.entries) && OldEntriesWhole(job, now) && p in job.before && job.before[p].DirectoryNode?
    ensures p in now && (now[p] == job.before[p] || now[p] == DeclaredNode(job, p))
  {
    assert OldOrNew(job, now, p);
    if now[p] != job.before[p] {
      var e :| e in job.entries && e.kind.Directory? && e.target == p && now[p] == DirectoryNode(job.before[p].id, EntryMode(e));
      DeclaredModeOf(job.entries, e);
    }
  }

  lemma {:induction false} ReachableBetween(job: Job, now: Nodes, p: LocalPath)
    requires DistinctTargets(job.entries) && OldEntriesWhole(job, now)
    requires Reachable(job.before, p) && Reachable(Declared(job), p)
    ensures Reachable(now, p)
    decreases |p|
  {
    if p != [] {
      OldOrDeclared(job, now, ParentOf(p));
      ReachableBetween(job, now, ParentOf(p));
    }
  }

  lemma EditableBetween(job: Job, now: Nodes, p: LocalPath)
    requires DistinctTargets(job.entries) && OldEntriesWhole(job, now)
    requires Editable(job.before, p) && Editable(Declared(job), p)
    ensures Editable(now, p)
  {
    ReachableBetween(job, now, p);
    OldOrDeclared(job, now, ParentOf(p));
  }

  /** Wherever the modes have been applied so far, the new targets can be removed. */
  lemma BetweenIsWorkable(job: Job, now: Nodes, created: seq<CreatedTarget>)
    requires DistinctTargets(job.entries) && OldEntriesWhole(job, now) && Undoable(job.before, now, created)
    requires NewPaths(created) <= Targets(job.entries) && StaysOpen(job)
    ensures Workable(job.before, now, created)
  {
    forall t {:trigger EntryWorkable(job.before, now, t)} | t in created ensures EntryWorkable(job.before, now, t) {
      if t.removable && t.path != [] && ParentOf(t.path) in job.before {
        var i :| 0 <= i < |created| && created[i] == t;
        assert TargetOk(job.before, now, created, i);
        assert t.path in NewPaths(created);
        var e :| e in job.entries && e.target == t.path;
        assert EntryStaysOpen(job, e);
        EditableBetween(job, now, t.path);
      }
    }
  }

  function Chmodded(now: Nodes, e: Entry): Nodes
    requires e.target in now && now[e.target].DirectoryNode?
  {
    now[e.target := DirectoryNode(now[e.target].id, EntryMode(e))]
  }

  lemma SettledChmod(job: Job, now: Nodes, created: seq<CreatedTarget>, e: Entry, t: CreatedTarget)
    requires Settled(job, now, created) && e in job.entries && e.kind.Directory?
    requires DistinctTargets(job.entries) && NewPaths(created) <= Targets(job.entries)
    requires t in created && t.isDirectory && t.path == e.target
    ensures e.target in now && now[e.target].DirectoryNode? && Settled(job, Chmodded(now, e), created)
  {
    assert InPlace(now, t);
    var next, p := Chmodded(now, e), e.target;
    UpdateUndoable(job.before, now, created, p, next[p]);
    if t.removable {
      assert p in NewPaths(created);
      NewNotOld(job.before, now, created, p);
    }
    forall q {:trigger OldOrNew(job, next, q)} | q in job.before ensures OldOrNew(job, next, q) {
      assert OldOrNew(job, now, q);
      if q == p {
        ChmodIsDeclared(job, now, e);
      }
    }
    if StaysOpen(job) {
      BetweenIsWorkable(job, next, created);
    }
  }

  lemma ChmodIsDeclared(job: Job, now: Nodes, e: Entry)
    requires e in job.entries && e.kind.Directory? && e.target in job.before && job.policy.Overwrite?
    requires OldOrNew(job, now, e.target) && now[e.target].DirectoryNode?
    ensures OldOrNew(job, Chmodded(now, e), e.target)
  {
    assert Chmodded(now, e)[e.target] == DirectoryNode(job.before[e.target].id, EntryMode(e));
  }

  /** Everything is there, and the directories from the `j`th on have their final mode. */
  ghost predicate MetadataDone(job: Job, now: Nodes, created: seq<CreatedTarget>, dirs: seq<Entry>, files: seq<Entry>, j: nat) {
    && Settled(job, now, created) && OthersSame(job, now, Targets(dirs) + Targets(files))
    && DistinctTargets(job.entries) && NewPaths(created) <= Targets(job.entries)
    && (forall m {:trigger dirs[m]} :: 0 <= m < |dirs| ==>
         DirectoryReady(now, created, dirs[m]) && (j <= m ==> DirectoryPlaced(now, dirs[m])))
    && (forall m {:trigger files[m]} :: 0 <= m < |files| ==> FilePlaced(job, now, files[m]))
  }

  lemma MetadataStart(job: Job, now: Nodes, created: seq<CreatedTarget>, dirs: seq<Entry>, files: seq<Entry>)
    requires FilesDone(job, now, created, dirs, files, |files|) && DistinctTargets(job.entries)
    requires Targets(dirs) + Targets(files) <= Targets(job.entries)
    ensures MetadataDone(job, now, created, dirs, files, |dirs|)
  {
    assert files[..|files|] == files;
    SafeIsSettled(job, now, created);
  }

  lemma MetadataStep(job: Job, now: Nodes, created: seq<CreatedTarget>, dirs: seq<Entry>, files: seq<Entry>, j: nat, t: CreatedTarget)
    requires j < |dirs| && DistinctTargets(dirs) && Apart(dirs, files) && MetadataDone(job, now, created, dirs, files, j + 1)
    requires dirs[j] in job.entries && dirs[j].kind.Directory? && t in created && t.isDirectory && t.path == dirs[j].target
    ensures t.path in now && now[t.path].DirectoryNode? && now[t.path].id == t.identity
    ensures MetadataDone(job, Chmodded(now, dirs[j]), created, dirs, files, j)
  {
    assert InPlace(now, t);
    SettledChmod(job, now, created, dirs[j], t);
    var next := Chmodded(now, dirs[j]);
    assert dirs[j] in dirs && dirs[j].target in Targets(dirs);
    forall m {:trigger dirs[m]} | 0 <= m < |dirs| ensures DirectoryReady(next, created, dirs[m]) && (j <= m ==> DirectoryPlaced(next, dirs[m])) {
      assert DirectoryReady(now, created, dirs[m]);
    }
    forall m {:trigger files[m]} | 0 <= m < |files| ensures FilePlaced(job, next, files[m]) {
      assert FilePlaced(job, now, files[m]) && files[m] in files;
    }
  }

  lemma MetadataPlaces(job: Job, now: Nodes, created: seq<CreatedTarget>, dirs: seq<Entry>, files: seq<Entry>)
    requires dirs == OfKind(job.entries, Directory) && files == OfKind(job.entries, File)
    requires MetadataDone(job, now, created, dirs, files, 0)
    ensures Placed(job, now)
  {
    OfKindMembers(job.entries, Directory);
    OfKindMembers(job.entries, File);
    forall e | e in job.entries ensures if e.kind.File? then FilePlaced(job, now, e) else DirectoryPlaced(now, e) {
      if e.kind.File? {
        assert e in files;
        var m :| 0 <= m < |files| && files[m] == e;
        assert FilePlaced(job, now, files[m]);
      } else {
        assert e in dirs;
        var m :| 0 <= m < |dirs| && dirs[m] == e;
        assert DirectoryPlaced(now, dirs[m]);
      }
    }
    assert Targets(dirs) + Targets(files) == Targets(job.entries);
  }

  lemma KindsApart(entries: seq<Entry>)
    requires DistinctTargets(entries)
    ensures Apart(OfKind(entries, Directory), OfKind(entries, File))
  {
    OfKindMembers(entries, Directory);
    OfKindMembers(entries, File);
    forall d, f | d in OfKind(entries, Directory) && f in OfKind(entries, File) ensures d.target != f.target {
      var i :| 0 <= i < |entries| && entries[i] == d;
      var j :| 0 <= j < |entries| && entries[j] == f;
    }
  }

  /** Cleaning up a failed run: exactly the old disk, or under Overwrite the old paths with whole files. */
  ghost predicate RolledBack(job: Job, now: Nodes) {
    && now.Keys == job.before.Keys && OldEntriesWhole(job, now)
    && (!job.policy.Overwrite? ==> now == job.before)
  }

  /**
    Rollback is exact if and only if the file system refuses no removal and no old directory has
    lost its owner's access on the way, which cannot happen when no declared mode shuts the owner
    out, and so never without Overwrite.
   */
  lemma CleanupRollsBackIff(job: Job, now: Nodes, created: seq<CreatedTarget>, stuck: set<LocalPath>)
    requires Settled(job, now, created)
    ensures RolledBack(job, CleanedUp(now, created, stuck)) <==> stuck !! NewPaths(created) && Workable(job.before, now, created)
    ensures StaysOpen(job) ==> Workable(job.before, now, created)
  {
    CleanupExactIff(job.before, now, created, stuck);
    if stuck !! NewPaths(created) && Workable(job.before, now, created) {
      var cleaned := Old(job.before, now);
      forall p {:trigger OldOrNew(job, cleaned, p)} | p in job.before ensures OldOrNew(job, cleaned, p) {
        assert OldOrNew(job, now, p);
      }
      if !job.policy.Overwrite? {
        forall p | p in job.before ensures cleaned[p] == job.before[p] {
          assert OldOrNew(job, now, p);
        }
      }
    }
  }

  // After all metadata every old directory has its declared mode

  lemma {:induction false} ReachableDeclared(job: Job, now: Nodes, p: LocalPath)
    requires DiskValid(job.before) && AllDeclared(job, now) && (p == [] || ParentOf(p) in job.before)
    ensures Reachable(now, p) <==> Reachable(Declared(job), p)
    decreases |p|
  {
    if p != [] {
      var d := ParentOf(p);
      assert AsDeclared(job, now, d);
      assert Hung(job.before, d);
      ReachableDeclared(job, now, d);
    }
  }

  ghost predicate AsDeclared(job: Job, now: Nodes, p: LocalPath)
    requires p in job.before
  {
    p in now && (if job.before[p].DirectoryNode? then now[p] == DeclaredNode(job, p) else !now[p].DirectoryNode?)
  }

  ghost predicate AllDeclared(job: Job, now: Nodes) {
    forall p {:trigger AsDeclared(job, now, p)} :: p in job.before ==> AsDeclared(job, now, p)
  }

  lemma MetadataDeclares(job: Job, now: Nodes, created: seq<CreatedTarget>, dirs: seq<Entry>, files: seq<Entry>)
    requires dirs == OfKind(job.entries, Directory) && files == OfKind(job.entries, File)
    requires MetadataDone(job, now, created, dirs, files, 0)
    ensures AllDeclared(job, now)
  {
    forall p {:trigger AsDeclared(job, now, p)} | p in job.before ensures AsDeclared(job, now, p) {
      assert OldOrNew(job, now, p);
      if job.before[p].DirectoryNode? && now[p] == job.before[p] && DeclaredMode(job.entries, p).Some? {
        DeclaredModeFrom(job.entries, p);
        var e :| e in job.entries && e.kind.Directory? && e.target == p;
        DeclaredModeOf(job.entries, e);
        OfKindMembers(job.entries, Directory);
        assert e in dirs;
        var m :| 0 <= m < |dirs| && dirs[m] == e;
        assert DirectoryPlaced(now, dirs[m]);
      } else if job.before[p].DirectoryNode? && now[p] != job.before[p] {
        OldOrDeclared(job, now, p);
      }
    }
  }

  /** A new target of the plan, in an old directory, is removable exactly when its entry stays open. */
  lemma LateWorkableIff(job: Job, now: Nodes, created: seq<CreatedTarget>, dirs: seq<Entry>, files: seq<Entry>)
    requires dirs == OfKind(job.entries, Directory) && files == OfKind(job.entries, File)
    requires MetadataDone(job, now, created, dirs, files, 0)
    ensures Workable(job.before, now, created) <==> StaysOpen(job)
  {
    if Workable(job.before, now, created) {
      MetadataDeclares(job, now, created, dirs, files);
      MetadataPlaces(job, now, created, dirs, files);
      forall e {:trigger EntryStaysOpen(job, e)} | e in job.entries ensures EntryStaysOpen(job, e) {
        if e.target !in job.before && e.target != [] && ParentOf(e.target) in job.before {
          assert e.target in now;
          assert e.target in NewPaths(created);
          var t :| t in created && t.removable && t.path == e.target;
          assert EntryWorkable(job.before, now, t);
          ReachableDeclared(job, now, e.target);
          assert AsDeclared(job, now, ParentOf(e.target));
        }
      }
    }
  }

  /** A run that fails after all metadata rolls back if and only if no declared mode shuts the owner out. */
  lemma LateFailureRollsBackIff(job: Job, now: Nodes, created: seq<CreatedTarget>, dirs: seq<Entry>, files: seq<Entry>)
    requires dirs == OfKind(job.entries, Directory) && files == OfKind(job.entries, File)
    requires MetadataDone(job, now, created, dirs, files, 0)
    ensures RolledBack(job, CleanedUp(now, created, {})) <==> StaysOpen(job)
  {
    LateWorkableIff(job, now, created, dirs, files);
    CleanupRollsBackIff(job, now, created, {});
  }

  /** An unrecorded entry survives cleanup. */
  lemma StrayStays(job: Job, now: Nodes, created: seq<CreatedTarget>, stray: set<LocalPath>, stuck: set<LocalPath>)
    requires StrayLeft(job, now, created, stray)
    ensures !RolledBack(job, CleanedUp(now, created, stuck))
  {
    var p :| p in stray;
    CleanupOnlyOwn(now, created, stuck);
    assert Spared(now, CleanedUp(now, created, stuck), created, p);
  }

  // ---- a mode that locks the engine out ------------------------------------

  /** The declared directory `a`, of mode 0, over an existing one, with a directory inside it. */
  ghost function LockedJob(read: Reader): Job {
    Job(map[[] := DirectoryNode(0, PRIVATE_DIRECTORY), ["a"] := DirectoryNode(1, PRIVATE_DIRECTORY)],
        [Entry("a", ["a"], Directory, 0, 0), Entry("a/d", ["a", "d"], Directory, 0, 0x1ED)], Overwrite, read)
  }

  ghost function LockedTargets(): seq<CreatedTarget> {
    [CreatedTarget(["a"], 1, true, false), CreatedTarget(["a", "d"], 2, true, true)]
  }

  lemma LockedMade(read: Reader)
    ensures var job, c := LockedJob(read), LockedTargets();
            var made := job.before[["a", "d"] := DirectoryNode(2, PRIVATE_DIRECTORY)];
            Safe(job, made, c) && OnlyOldTakenOver(job, c) && NewPaths(c) <= Targets(job.entries)
  {
    var job, c := LockedJob(read), LockedTargets();
    assert ParentOf(["a"]) == [] && ParentOf(["a", "d"]) == ["a"];
    assert DiskValid(job.before);
    SafeStart(job);
    SafeTakeOver(job, job.before, [], c[0]);
    SafeCreate(job, job.before, [c[0]], c[1], DirectoryNode(2, PRIVATE_DIRECTORY));
    assert [] + [c[0]] == [c[0]] && [c[0]] + [c[1]] == c;
    assert job.entries[1] in job.entries;
  }

  /**
    Under Overwrite a reused directory whose declared mode is 0 is closed by its own metadata step;
    if the run fails right after, the directory made inside it cannot be removed any more.
   */
  lemma ClosedDirectoryKeepsChild(read: Reader)
    ensures exists now, created :: Settled(LockedJob(read), now, created) && !RolledBack(LockedJob(read), CleanedUp(now, created, {}))
  {
    var job, c := LockedJob(read), LockedTargets();
    LockedMade(read);
    var made := job.before[["a", "d"] := DirectoryNode(2, PRIVATE_DIRECTORY)];
    SafeIsSettled(job, made, c);
    SettledChmod(job, made, c, job.entries[1], c[1]);
    var inner := Chmodded(made, job.entries[1]);
    SettledChmod(job, inner, c, job.entries[0], c[0]);
    var now := Chmodded(inner, job.entries[0]);
    assert ParentOf(["a", "d"]) == ["a"];
    assert !EntryWorkable(job.before, now, c[1]);
    CleanupRollsBackIff(job, now, c, {});
  }
}
