/**
  The materialize engine.  Any call to the file system may fail, any report may be answered with
  a cancellation, and cleanup runs on every failure.
 */
module Materialize {
  import opened Base
  import opened Copy
  import opened Disk
  import opened MaterializeJob
  import opened Paths
  import opened Planner
  import opened Rollback
  import opened Tree

  /** An output file being written, and what happens to it when it is complete. */
  datatype OpenFile = OpenFile(written: CreatedTarget, finalPath: LocalPath, finalRemovable: bool, replace: bool)

  /** The output file is new, empty and recorded; it is the target itself or will replace an old file. */
  ghost predicate Writing(job: Job, was: Nodes, now: Nodes, created: seq<CreatedTarget>, e: Entry, f: OpenFile) {
    var w := f.written;
    && w.removable && !w.isDirectory && w.path !in was
    && now == was[w.path := FileNode(w.identity, PRIVATE_FILE, [])] && Safe(job, now, created + [w])
    && f.finalPath == e.target
    && (if f.replace then job.policy.Overwrite? && e.target in was && was[e.target].FileNode? && !f.finalRemovable
        else w.path == e.target && f.finalRemovable)
  }

  /** Only the content and mode of the output file have changed. */
  ghost predicate OnlyOutput(was: Nodes, now: Nodes, w: CreatedTarget) {
    w.path in now && now == was[w.path := now[w.path]] && now[w.path].FileNode? && now[w.path].id == w.identity
  }

  ghost predicate Holding(was: Nodes, now: Nodes, w: CreatedTarget, content: seq<Byte>) {
    OnlyOutput(was, now, w) && now[w.path].content == content
  }

  /** The output file is complete and only has to be moved to its place. */
  ghost predicate Completing(job: Job, was: Nodes, now: Nodes, e: Entry, f: OpenFile) {
    var w := f.written;
    && w.removable && !w.isDirectory && w.path !in was && f.finalPath == e.target
    && w.path in now && now == was[w.path := now[w.path]]
    && HoldsCopy(job, e, now[w.path]) && now[w.path].mode == EntryMode(e)
    && (if f.replace
        then job.policy.Overwrite? && e.target in job.before && job.before[e.target].FileNode? && e.target in was && !f.finalRemovable
        else w.path == e.target && w == CreatedTarget(e.target, w.identity, false, f.finalRemovable))
  }

  lemma WritingIsNew(job: Job, was: Nodes, now: Nodes, created: seq<CreatedTarget>, e: Entry, f: OpenFile)
    requires Safe(job, was, created) && Writing(job, was, now, created, e, f) && e.target !in NewPaths(created)
    ensures f.written.path !in job.before && Holding(now, now, f.written, [])
    ensures f.replace ==> e.target in job.before && job.before[e.target].FileNode?
  {
    assert f.written in created + [f.written];
    NewNotOld(job.before, now, created + [f.written], f.written.path);
    assert now == now[f.written.path := now[f.written.path]];
    if f.replace {
      assert OldOrNew(job, was, e.target);
    }
  }

  /** Whatever was written so far, cleanup can take the output file away. */
  lemma FilledIsSafe(job: Job, was: Nodes, output: Nodes, now: Nodes, created: seq<CreatedTarget>, e: Entry, f: OpenFile)
    requires Safe(job, was, created) && Writing(job, was, output, created, e, f) && e.target !in NewPaths(created)
    requires OnlyOutput(output, now, f.written)
    ensures Safe(job, now, created + [f.written])
    ensures HoldsCopy(job, e, now[f.written.path]) && now[f.written.path].mode == EntryMode(e) ==> Completing(job, was, now, e, f)
  {
    WritingIsNew(job, was, output, created, e, f);
    SafeUpdate(job, output, created + [f.written], f.written.path, now[f.written.path]);
  }

  lemma NotYetMade(created: seq<CreatedTarget>, dirs: seq<Entry>, files: seq<Entry>, i: nat)
    requires i < |files| && DistinctTargets(files) && Apart(dirs, files) && NewPaths(created) <= Targets(dirs) + Targets(files[..i])
    ensures files[i].target !in NewPaths(created)
  {
    NotYetTarget(files, i);
    assert files[i] in files;
  }

  /** What the phases need to know about the entries of each kind. */
  ghost predicate Sorted(job: Job, k: Tally, dirs: seq<Entry>, files: seq<Entry>) {
    && DistinctTargets(dirs) && DistinctTargets(files) && Apart(dirs, files)
    && (forall e :: e in dirs ==> e.kind.Directory? && e in job.entries)
    && (forall e :: e in files ==> e.kind.File? && e in job.entries)
    && DistinctTargets(job.entries) && Targets(dirs) + Targets(files) <= Targets(job.entries)
    && TallyValid(k) && k.files == files && k.start.directoriesTotal == |dirs| && k.strict == !job.policy.Overwrite?
  }

  lemma EntriesSorted(job: Job)
    requires DistinctTargets(job.entries)
    ensures Sorted(job, TallyOf(job.entries, job.policy), OfKind(job.entries, Directory), OfKind(job.entries, File))
  {
    OfKindMembers(job.entries, Directory);
    OfKindMembers(job.entries, File);
    OfKindDistinct(job.entries, Directory);
    OfKindDistinct(job.entries, File);
    KindsApart(job.entries);
    TallyOfValid(job.entries, job.policy);
  }

  lemma CompleteProgress(entries: seq<Entry>, policy: ConflictPolicy, p: Progress)
    requires FileProgress(TallyOf(entries, policy), |OfKind(entries, File)|, 0, p)
    ensures p.entriesDone == p.entriesTotal && p.filesWritten == p.filesTotal && p.bytesWritten == p.bytesTotal
    ensures !policy.Overwrite? ==> p.directoriesCreated == p.directoriesTotal
  {
    OfKindCount(entries);
    var files := OfKind(entries, File);
    assert files[..|files|] == files;
  }

  /** What may be done in a directory does not depend on the name. */
  lemma SiblingEditable(nodes: Nodes, p: LocalPath, q: LocalPath)
    requires p != [] && q != [] && ParentOf(p) == ParentOf(q)
    ensures Editable(nodes, p) <==> Editable(nodes, q)
  {
  }

  function ListOf<T>(x: Option<T>): seq<T> {
    if x.Some? then [x.value] else []
  }

  class Engine {
    var nodes: Nodes
    var nextId: nat
    var created: seq<CreatedTarget>
    var progress: Progress
    var reports: seq<Progress>
    var stray: set<LocalPath>  // made by this run but never recorded
    var tempCounter: nat
    const processId: nat
    const smooth: bool  // no call fails by chance and the client never cancels

    constructor (nodes: Nodes, nextId: nat, tempCounter: nat, processId: nat, smooth: bool)
      ensures this.nodes == nodes && this.nextId == nextId && created == [] && reports == [] && stray == {}
      ensures progress == FreshProgress([])
    {
      this.nodes, this.nextId, this.tempCounter, this.processId, this.smooth := nodes, nextId, tempCounter, processId, smooth;
      created, reports, stray, progress := [], [], {}, FreshProgress([]);
    }

    // ---- calls that may fail -----------------------------------------------

    /** Nothing happens, or some failure. */
    method Chance() returns (failure: Option<Status>)
      ensures smooth ==> failure.None?
    {
      failure := *;
      if smooth {
        failure := None;
      }
    }

    method Examine(p: LocalPath) returns (r: Result<Option<Inode>>)
      ensures r.Ok? ==> r.value == if p in nodes then Some(nodes[p]) else None
      ensures smooth ==> r.Ok?
    {
      var failure := Chance();
      if failure.Some? {
        return Err(failure.value);
      }
      return Ok(if p in nodes then Some(nodes[p]) else None);
    }

    /** Makes `node` at a free path and reads its identity back; the second call may fail too. */
    method Make(p: LocalPath, node: Inode) returns (r: Result<()>)
      requires stray == {}
      modifies `nodes, `nextId, `stray
      ensures r.Ok? || stray != {} ==> p !in old(nodes) && Editable(old(nodes), p) && nodes == old(nodes)[p := node]
      ensures r.Ok? ==> stray == {}
      ensures r.Err? ==> (if stray == {} then nodes == old(nodes) else stray == {p} && r.status != AlreadyExists)
      ensures smooth && Editable(old(nodes), p) ==> (if p in old(nodes) then r == Err(AlreadyExists) else r.Ok?)
    {
      var failure := Chance();
      if failure.Some? {
        return Err(failure.value);
      }
      if p in nodes {
        return Err(AlreadyExists);
      }
      if !Editable(nodes, p) {
        return Err(Permission);
      }
      nodes, nextId := nodes[p := node], nextId + 1;
      failure := Chance();
      if failure.Some? && failure.value != AlreadyExists {
        stray := {p};
        return Err(failure.value);
      }
      return Ok(());
    }

    /** Sends the counters to the client, who may cancel. */
    method Report() returns (failure: Option<Status>)
      modifies `reports
      ensures reports == old(reports) + [progress] && (smooth ==> failure.None?)
    {
      reports := reports + [progress];
      failure := Chance();
    }

    // ---- cleanup -----------------------------------------------------------

    method Cleanup(stuck: set<LocalPath>)
      modifies `nodes
      ensures nodes == CleanedUp(old(nodes), created, stuck)
    {
      for i := 0 to |created|
        invariant nodes == RestoreAll(old(nodes), created[..i])
      {
        assert created[..i + 1][..i] == created[..i];
        nodes := Restored(nodes, created[i]);
      }
      assert created[..|created|] == created;
      for i := |created| downto 0
        invariant RemoveAll(nodes, created[..i], stuck) == CleanedUp(old(nodes), created, stuck)
      {
        assert created[..i + 1][..i] == created[..i];
        nodes := Removed(nodes, created[i], stuck);
      }
    }

    // ---- directories -------------------------------------------------------

    /** `create_materialized_directory`. */
    method CreateDirectory(ghost job: Job, e: Entry, policy: ConflictPolicy) returns (r: Result<CreatedTarget>)
      requires stray == {} && Safe(job, nodes, created) && policy == job.policy && e.kind.Directory?
      modifies `nodes, `nextId, `stray
      ensures stray != {} ==> r.Err? && StrayLeft(job, nodes, created, stray)
      ensures stray == {} && r.Err? ==> nodes == old(nodes)
      ensures r.Ok? ==>
        && stray == {} && Safe(job, nodes, created + [r.value])
        && r.value.path == e.target && r.value.isDirectory && (r.value.removable <==> e.target !in old(nodes))
        && (r.value.removable || policy.Overwrite?) && SameExcept(old(nodes), nodes, e.target)
        && e.target in nodes && nodes[e.target].DirectoryNode?
      ensures smooth && Admits(old(nodes), e, policy, processId) ==> r.Ok?
    {
      var found := Examine(e.target);
      if found.Err? {
        return Err(found.status);
      }
      if found.value.Some? {
        var conflict := Conflict(e.kind, found.value.value, policy);
        if conflict.Some? {
          return Err(conflict.value);
        }
        var t := CreatedTarget(e.target, found.value.value.id, true, false);
        SafeTakeOver(job, nodes, created, t);
        return Ok(t);
      }
      var t, node := CreatedTarget(e.target, nextId, true, true), DirectoryNode(nextId, PRIVATE_DIRECTORY);
      var made := Make(e.target, node);
      if made.Err? {
        if stray != {} {
          StrayIsLeft(job, old(nodes), created, e.target, node);
        }
        return Err(made.status);
      }
      SafeCreate(job, old(nodes), created, t, node);
      return Ok(t);
    }

    method CreateDirectories(ghost job: Job, ghost root: LocalPath, ghost k: Tally, dirs: seq<Entry>, policy: ConflictPolicy)
      returns (failure: Option<Status>)
      requires stray == {} && created == [] && nodes == job.before && DiskValid(nodes) && policy == job.policy
      requires DistinctTargets(dirs) && forall e :: e in dirs ==> e.kind.Directory?
      requires TallyValid(k) && k.start.directoriesTotal == |dirs| && k.strict == !policy.Overwrite?
      requires progress == k.start && History(reports, progress)
      modifies `nodes, `nextId, `stray, `created, `progress, `reports
      ensures History(reports, progress)
      ensures stray != {} ==> failure.Some? && StrayLeft(job, nodes, created, stray)
      ensures stray == {} ==> Safe(job, nodes, created) && OnlyOldTakenOver(job, created)
      ensures failure.None? ==> DirectoriesDone(job, nodes, created, dirs, |dirs|) && DirectoryProgress(k, |dirs|, progress)
      ensures smooth && Favourable(job, root, processId) && dirs == OfKind(job.entries, Directory) ==> failure.None?
    {
      SafeStart(job);
      for i := 0 to |dirs|
        invariant stray == {} && DirectoriesDone(job, nodes, created, dirs, i)
        invariant History(reports, progress) && DirectoryProgress(k, i, progress)
      {
        assert dirs[i] in dirs;
        if Favourable(job, root, processId) && dirs == OfKind(job.entries, Directory) {
          NextDirectoryFits(job, root, processId, nodes, created, dirs, i);
        }
        failure := CreateNext(job, k, dirs, i, policy);
        if failure.Some? {
          return;
        }
      }
      failure := None;
    }

    method CreateNext(ghost job: Job, ghost k: Tally, dirs: seq<Entry>, i: nat, policy: ConflictPolicy) returns (failure: Option<Status>)
      requires i < |dirs| && dirs[i].kind.Directory? && DistinctTargets(dirs) && policy == job.policy
      requires stray == {} && DirectoriesDone(job, nodes, created, dirs, i)
      requires TallyValid(k) && k.start.directoriesTotal == |dirs| && k.strict == !policy.Overwrite?
      requires DirectoryProgress(k, i, progress) && History(reports, progress)
      modifies `nodes, `nextId, `stray, `created, `progress, `reports
      ensures History(reports, progress)
      ensures stray != {} ==> failure.Some? && StrayLeft(job, nodes, created, stray)
      ensures stray == {} ==> Safe(job, nodes, created) && OnlyOldTakenOver(job, created)
      ensures failure.None? ==> DirectoriesDone(job, nodes, created, dirs, i + 1) && DirectoryProgress(k, i + 1, progress)
      ensures smooth && Admits(old(nodes), dirs[i], policy, processId) ==> failure.None?
    {
      var made := CreateOne(job, dirs, i, policy);
      if made.Err? {
        return Some(made.status);
      }
      failure := CountDirectory(k, i, made.value);
    }

    method CreateOne(ghost job: Job, dirs: seq<Entry>, i: nat, policy: ConflictPolicy) returns (r: Result<bool>)
      requires i < |dirs| && dirs[i].kind.Directory? && DistinctTargets(dirs) && policy == job.policy
      requires stray == {} && DirectoriesDone(job, nodes, created, dirs, i)
      modifies `nodes, `nextId, `stray, `created
      ensures stray != {} ==> r.Err? && StrayLeft(job, nodes, created, stray)
      ensures stray == {} && r.Err? ==> nodes == old(nodes) && created == old(created)
      ensures r.Ok? ==> stray == {} && DirectoriesDone(job, nodes, created, dirs, i + 1) && (r.value || policy.Overwrite?)
      ensures smooth && Admits(old(nodes), dirs[i], policy, processId) ==> r.Ok?
    {
      var made := CreateDirectory(job, dirs[i], policy);
      if made.Err? {
        return Err(made.status);
      }
      DirectoriesDoneStep(job, old(nodes), nodes, created, made.value, dirs, i);
      created := created + [made.value];
      return Ok(made.value.removable);
    }

    method CountDirectory(ghost k: Tally, ghost i: nat, removable: bool) returns (failure: Option<Status>)
      requires TallyValid(k) && i < k.start.directoriesTotal && DirectoryProgress(k, i, progress) && History(reports, progress)
      requires k.strict ==> removable
      modifies `progress, `reports
      ensures DirectoryProgress(k, i + 1, progress) && History(reports, progress) && (smooth ==> failure.None?)
    {
      if removable {
        progress := progress.(directoriesCreated := progress.directoriesCreated + 1);
      }
      progress := progress.(entriesDone := progress.entriesDone + 1);
      DirectoryProgressFine(k, i + 1, progress);
      HistoryAdvances(reports, old(progress), progress);
      failure := Report();
    }

    // ---- files -------------------------------------------------------------

    /** `open_replacement_materialized_file`: a temporary file beside the target. */
    method OpenReplacement(ghost job: Job, e: Entry) returns (r: Result<OpenFile>)
      requires stray == {} && Safe(job, nodes, created)
      requires job.policy.Overwrite? && e.target in nodes && nodes[e.target].FileNode?
      modifies `nodes, `nextId, `stray, `tempCounter
      ensures stray != {} ==> r.Err? && StrayLeft(job, nodes, created, stray)
      ensures stray == {} && r.Err? ==> nodes == old(nodes)
      ensures r.Ok? ==> stray == {} && Writing(job, old(nodes), nodes, created, e, r.value)
      ensures smooth && Editable(old(nodes), e.target) && TempsFree(old(nodes).Keys, processId, e.target) ==> r.Ok?
    {
      if e.target == [] {
        return Err(InvalidArgument);
      }
      assert TempsFree(nodes.Keys, processId, e.target) ==> TempFreeFrom(nodes.Keys, processId, e.target, tempCounter);
      for k := 0 to TEMP_ATTEMPTS
        invariant stray == {} && nodes == old(nodes) && tempCounter == old(tempCounter) + k
        invariant smooth && Editable(nodes, e.target) ==>
          forall n :: old(tempCounter) <= n < old(tempCounter) + k ==> TempPath(processId, n, e.target) in nodes
      {
        var temp := TempPath(processId, tempCounter, e.target);
        SiblingEditable(nodes, e.target, temp);
        tempCounter := tempCounter + 1;
        var output := OpenNew(job, temp);
        if output.Ok? {
          return Ok(OpenFile(output.value, e.target, false, true));
        }
        if output.status != AlreadyExists {
          return Err(output.status);
        }
      }
      return Err(AlreadyExists);
    }

    /** An exclusively created, empty file. */
    method OpenNew(ghost job: Job, p: LocalPath) returns (r: Result<CreatedTarget>)
      requires stray == {} && Safe(job, nodes, created)
      modifies `nodes, `nextId, `stray
      ensures stray != {} ==> r.Err? && r.status != AlreadyExists && StrayLeft(job, nodes, created, stray)
      ensures stray == {} && r.Err? ==> nodes == old(nodes)
      ensures r.Ok? ==>
        && stray == {} && r.value == CreatedTarget(p, r.value.identity, false, true) && p !in old(nodes)
        && nodes == old(nodes)[p := FileNode(r.value.identity, PRIVATE_FILE, [])] && Safe(job, nodes, created + [r.value])
      ensures smooth && Editable(old(nodes), p) ==> (if p in old(nodes) then r == Err(AlreadyExists) else r.Ok?)
    {
      var t, node := CreatedTarget(p, nextId, false, true), FileNode(nextId, PRIVATE_FILE, []);
      var made := Make(p, node);
      if made.Err? {
        if stray != {} {
          StrayIsLeft(job, old(nodes), created, p, node);
        }
        return Err(made.status);
      }
      SafeCreate(job, old(nodes), created, t, node);
      return Ok(t);
    }

    /** `open_materialized_file`. */
    method OpenTarget(ghost job: Job, e: Entry, policy: ConflictPolicy) returns (r: Result<OpenFile>)
      requires stray == {} && Safe(job, nodes, created) && policy == job.policy && e.kind.File?
      modifies `nodes, `nextId, `stray, `tempCounter
      ensures stray != {} ==> r.Err? && StrayLeft(job, nodes, created, stray)
      ensures stray == {} && r.Err? ==> nodes == old(nodes)
      ensures r.Ok? ==> stray == {} && Writing(job, old(nodes), nodes, created, e, r.value)
      ensures smooth && Admits(old(nodes), e, policy, processId) ==> r.Ok?
    {
      var found := Examine(e.target);
      if found.Err? {
        return Err(found.status);
      }
      if found.value.Some? {
        var conflict := Conflict(e.kind, found.value.value, policy);
        if conflict.Some? {
          return Err(conflict.value);
        }
        r := OpenReplacement(job, e);
        return;
      }
      var output := OpenNew(job, e.target);
      if output.Err? {
        return Err(output.status);
      }
      return Ok(OpenFile(output.value, e.target, true, false));
    }

    /** The copy loop of `write_materialized_file`. */
    method CopyInto(ghost k: Tally, read: Reader, w: CreatedTarget, e: Entry, ghost i: nat) returns (failure: Option<Status>)
      requires Bounded(read) && TallyValid(k) && i < |k.files| && e == k.files[i]
      requires Holding(nodes, nodes, w, []) && FileProgress(k, i, 0, progress) && History(reports, progress)
      modifies `nodes, `progress, `reports
      ensures OnlyOutput(old(nodes), nodes, w) && History(reports, progress)
      ensures failure.None? ==>
        CopyFrom(read, e.relativePath, e.size, 0) == Ok(nodes[w.path].content) && FileProgress(k, i, e.size, progress)
      ensures smooth && CopyFrom(read, e.relativePath, e.size, 0).Ok? ==> failure.None?
    {
      var base, content := progress.bytesWritten, [];
      CopiedStart(read, e.relativePath, e.size);
      while |content| < e.size
        invariant CopiedSoFar(read, e.relativePath, e.size, content)
        invariant Holding(old(nodes), nodes, w, content)
        invariant FileProgress(k, i, |content|, progress) && History(reports, progress) && base + |content| == progress.bytesWritten
      {
        var chunk := NextChunk(read, e, content);
        if chunk.Err? {
          return Some(chunk.status);
        }
        failure := Append(old(nodes), w, content, chunk.value);
        if failure.Some? {
          return;
        }
        content := content + chunk.value;
        failure := CountBytes(k, i, base, |content|);
        if failure.Some? {
          return;
        }
      }
      CopiedAll(read, e.relativePath, e.size, content);
      failure := None;
    }

    static method NextChunk(read: Reader, e: Entry, content: seq<Byte>) returns (r: Result<seq<Byte>>)
      requires Bounded(read) && |content| < e.size && CopiedSoFar(read, e.relativePath, e.size, content)
      ensures r.Ok? ==> r.value != [] && CopiedSoFar(read, e.relativePath, e.size, content + r.value)
      ensures r.Err? ==> CopyFrom(read, e.relativePath, e.size, 0).Err?
    {
      CopiedMore(read, e.relativePath, e.size, content);
      r := read(e.relativePath, |content|, ChunkLength(e.size, |content|));
      if r.Ok? && r.value == [] {
        return Err(Io);
      }
    }

    /** `write_all`: after a failure the file holds anything. */
    method Append(ghost was: Nodes, w: CreatedTarget, content: seq<Byte>, chunk: seq<Byte>) returns (failure: Option<Status>)
      requires Holding(was, nodes, w, content)
      modifies `nodes
      ensures OnlyOutput(was, nodes, w) && (failure.None? ==> Holding(was, nodes, w, content + chunk))
      ensures smooth ==> failure.None?
    {
      var written := content + chunk;
      failure := Chance();
      if failure.Some? {
        written := *;
      }
      nodes := nodes[w.path := nodes[w.path].(content := written)];
    }

    method CountBytes(ghost k: Tally, ghost i: nat, base: nat, offset: nat) returns (failure: Option<Status>)
      requires TallyValid(k) && i < |k.files| && base <= progress.bytesWritten <= base + offset
      requires FileProgress(k, i, progress.bytesWritten - base, progress) && History(reports, progress)
      requires offset <= k.files[i].size
      modifies `progress, `reports
      ensures FileProgress(k, i, offset, progress) && History(reports, progress) && progress.bytesWritten == base + offset
      ensures smooth ==> failure.None?
    {
      progress := progress.(bytesWritten := base + offset);
      FileProgressFine(k, i, offset, progress);
      HistoryAdvances(reports, old(progress), progress);
      failure := Report();
    }

    /** Copies the content, then sets mode and times. */
    method Fill(ghost k: Tally, read: Reader, w: CreatedTarget, e: Entry, ghost i: nat) returns (failure: Option<Status>)
      requires Bounded(read) && TallyValid(k) && i < |k.files| && e == k.files[i]
      requires Holding(nodes, nodes, w, []) && FileProgress(k, i, 0, progress) && History(reports, progress)
      modifies `nodes, `progress, `reports
      ensures OnlyOutput(old(nodes), nodes, w) && History(reports, progress)
      ensures failure.None? ==>
        && CopyFrom(read, e.relativePath, e.size, 0) == Ok(nodes[w.path].content) && nodes[w.path].mode == EntryMode(e)
        && FileProgress(k, i, e.size, progress)
      ensures smooth && CopyFrom(read, e.relativePath, e.size, 0).Ok? ==> failure.None?
    {
      failure := CopyInto(k, read, w, e, i);
      if failure.Some? {
        return;
      }
      failure := Chance();
      if failure.Some? {
        return;
      }
      nodes := nodes[w.path := nodes[w.path].(mode := EntryMode(e))];
      failure := Chance();
    }

    /** `write_materialized_file`; `left` is the target that a failure leaves to cleanup. */
    method WriteFile(ghost job: Job, ghost k: Tally, read: Reader, e: Entry, policy: ConflictPolicy, ghost i: nat)
      returns (r: Result<CreatedTarget>, left: Option<CreatedTarget>)
      requires read == job.read && Bounded(read) && policy == job.policy && TallyValid(k) && i < |k.files| && e == k.files[i]
      requires e.kind.File? && e in job.entries && e.target !in NewPaths(created)
      requires stray == {} && Safe(job, nodes, created) && FileProgress(k, i, 0, progress) && History(reports, progress)
      modifies `nodes, `nextId, `stray, `tempCounter, `progress, `reports
      ensures History(reports, progress)
      ensures stray != {} ==> r.Err? && left.None? && StrayLeft(job, nodes, created, stray)
      ensures stray == {} && r.Err? ==> Safe(job, nodes, created + ListOf(left)) && (left.Some? ==> left.value.removable)
      ensures r.Ok? ==>
        && stray == {} && Safe(job, nodes, created + [r.value]) && SameExcept(old(nodes), nodes, e.target)
        && r.value.path == e.target && (r.value.removable || (policy.Overwrite? && e.target in job.before))
        && FilePlaced(job, nodes, e) && FileProgress(k, i, e.size, progress)
      ensures smooth && Admits(old(nodes), e, policy, processId) && CopyFrom(read, e.relativePath, e.size, 0).Ok? ==> r.Ok?
    {
      assert created + [] == created;
      var output := OpenTarget(job, e, policy);
      if output.Err? {
        return Err(output.status), None;
      }
      left := Some(output.value.written);
      r := Complete(job, k, old(nodes), read, e, output.value, i);
    }

    /** Everything after the output file is open. */
    method Complete(ghost job: Job, ghost k: Tally, ghost was: Nodes, read: Reader, e: Entry, f: OpenFile, ghost i: nat)
      returns (r: Result<CreatedTarget>)
      requires read == job.read && Bounded(read) && TallyValid(k) && i < |k.files| && e == k.files[i]
      requires e.kind.File? && e in job.entries && e.target !in NewPaths(created)
      requires Safe(job, was, created) && Writing(job, was, nodes, created, e, f)
      requires FileProgress(k, i, 0, progress) && History(reports, progress)
      modifies `nodes, `progress, `reports
      ensures History(reports, progress)
      ensures r.Err? ==> Safe(job, nodes, created + [f.written])
      ensures r.Ok? ==>
        && Safe(job, nodes, created + [r.value]) && SameExcept(was, nodes, e.target)
        && r.value.path == e.target && (r.value.removable || (job.policy.Overwrite? && e.target in job.before))
        && FilePlaced(job, nodes, e) && FileProgress(k, i, e.size, progress)
      ensures smooth && CopyFrom(read, e.relativePath, e.size, 0).Ok? ==> r.Ok?
    {
      WritingIsNew(job, was, nodes, created, e, f);
      var failure := Fill(k, read, f.written, e, i);
      FilledIsSafe(job, was, old(nodes), nodes, created, e, f);
      if failure.Some? {
        return Err(failure.value);
      }
      r := Finalize(job, was, e, f);
    }

    /** `finalize_materialized_file`. */
    method Finalize(ghost job: Job, ghost was: Nodes, e: Entry, f: OpenFile) returns (r: Result<CreatedTarget>)
      requires Safe(job, nodes, created + [f.written]) && Completing(job, was, nodes, e, f)
      requires e.kind.File? && e in job.entries
      modifies `nodes
      ensures r.Err? ==> nodes == old(nodes)
      ensures r.Ok? ==>
        && Safe(job, nodes, created + [r.value]) && SameExcept(was, nodes, e.target)
        && r.value.path == e.target && (r.value.removable || (job.policy.Overwrite? && e.target in job.before)) && FilePlaced(job, nodes, e)
      ensures smooth ==> r.Ok?
    {
      var w := f.written;
      if f.replace {
        var failure := Chance();
        if failure.Some? {
          return Err(failure.value);
        }
        SafeReplace(job, nodes, created, w, e);
        nodes := (nodes - {w.path})[f.finalPath := nodes[w.path]];
      }
      return Ok(CreatedTarget(f.finalPath, w.identity, false, f.finalRemovable));
    }

    method WriteFiles(ghost job: Job, ghost root: LocalPath, ghost k: Tally, read: Reader, ghost dirs: seq<Entry>, files: seq<Entry>, policy: ConflictPolicy)
      returns (failure: Option<Status>)
      requires read == job.read && Bounded(read) && policy == job.policy
      requires TallyValid(k) && files == k.files && DistinctTargets(files) && Apart(dirs, files)
      requires forall e :: e in files ==> e.kind.File? && e in job.entries
      requires stray == {} && FilesDone(job, nodes, created, dirs, files, 0)
      requires FileProgress(k, 0, 0, progress) && History(reports, progress)
      modifies `nodes, `nextId, `stray, `tempCounter, `created, `progress, `reports
      ensures History(reports, progress)
      ensures stray != {} ==> failure.Some? && StrayLeft(job, nodes, created, stray)
      ensures stray == {} ==> Safe(job, nodes, created) && OnlyOldTakenOver(job, created)
      ensures failure.None? ==> FilesDone(job, nodes, created, dirs, files, |files|) && FileProgress(k, |files|, 0, progress)
      ensures smooth && Favourable(job, root, processId) && dirs == OfKind(job.entries, Directory) && files == OfKind(job.entries, File) ==>
        failure.None?
    {
      for i := 0 to |files|
        invariant stray == {} && FilesDone(job, nodes, created, dirs, files, i)
        invariant FileProgress(k, i, 0, progress) && History(reports, progress)
      {
        assert files[i] in files;
        if Favourable(job, root, processId) && dirs == OfKind(job.entries, Directory) && files == OfKind(job.entries, File) {
          NextFileFits(job, root, processId, nodes, created, dirs, files, i);
        }
        failure := WriteNext(job, k, read, dirs, files, i, policy);
        if failure.Some? {
          return;
        }
      }
      failure := None;
    }

    method WriteNext(ghost job: Job, ghost k: Tally, read: Reader, ghost dirs: seq<Entry>, files: seq<Entry>, i: nat, policy: ConflictPolicy)
      returns (failure: Option<Status>)
      requires read == job.read && Bounded(read) && policy == job.policy && TallyValid(k) && files == k.files
      requires i < |files| && files[i].kind.File? && files[i] in job.entries && DistinctTargets(files) && Apart(dirs, files)
      requires stray == {} && FilesDone(job, nodes, created, dirs, files, i)
      requires FileProgress(k, i, 0, progress) && History(reports, progress)
      modifies `nodes, `nextId, `stray, `tempCounter, `created, `progress, `reports
      ensures History(reports, progress)
      ensures stray != {} ==> failure.Some? && StrayLeft(job, nodes, created, stray)
      ensures stray == {} ==> Safe(job, nodes, created) && OnlyOldTakenOver(job, created)
      ensures failure.None? ==> FilesDone(job, nodes, created, dirs, files, i + 1) && FileProgress(k, i + 1, 0, progress)
      ensures smooth && Admits(old(nodes), files[i], policy, processId) && CopyFrom(read, files[i].relativePath, files[i].size, 0).Ok? ==> failure.None?
    {
      failure := WriteOne(job, k, read, dirs, files, i, policy);
      if failure.Some? {
        return;
      }
      failure := CountFile(k, i);
    }

    method WriteOne(ghost job: Job, ghost k: Tally, read: Reader, ghost dirs: seq<Entry>, files: seq<Entry>, i: nat, policy: ConflictPolicy)
      returns (failure: Option<Status>)
      requires read == job.read && Bounded(read) && policy == job.policy && TallyValid(k) && files == k.files
      requires i < |files| && files[i].kind.File? && files[i] in job.entries && DistinctTargets(files) && Apart(dirs, files)
      requires stray == {} && FilesDone(job, nodes, created, dirs, files, i)
      requires FileProgress(k, i, 0, progress) && History(reports, progress)
      modifies `nodes, `nextId, `stray, `tempCounter, `created, `progress, `reports
      ensures History(reports, progress)
      ensures stray != {} ==> failure.Some? && StrayLeft(job, nodes, created, stray)
      ensures stray == {} ==> Safe(job, nodes, created) && OnlyOldTakenOver(job, created)
      ensures failure.None? ==> FilesDone(job, nodes, created, dirs, files, i + 1) && FileProgress(k, i, files[i].size, progress)
      ensures smooth && Admits(old(nodes), files[i], policy, processId) && CopyFrom(read, files[i].relativePath, files[i].size, 0).Ok? ==> failure.None?
    {
      NotYetMade(created, dirs, files, i);
      var written, left := WriteFile(job, k, read, files[i], policy, i);
      if written.Err? {
        created := created + ListOf(left);
        assert stray != {} ==> created == old(created);
        return Some(written.status);
      }
      FilesDoneStep(job, old(nodes), nodes, created, written.value, dirs, files, i);
      created := created + [written.value];
      return None;
    }

    method CountFile(ghost k: Tally, ghost i: nat) returns (failure: Option<Status>)
      requires TallyValid(k) && i < |k.files| && FileProgress(k, i, k.files[i].size, progress) && History(reports, progress)
      modifies `progress, `reports
      ensures FileProgress(k, i + 1, 0, progress) && History(reports, progress) && (smooth ==> failure.None?)
    {
      SizeSumPrefix(k.files, i);
      progress := progress.(filesWritten := progress.filesWritten + 1, entriesDone := progress.entriesDone + 1);
      FileProgressFine(k, i + 1, 0, progress);
      HistoryAdvances(reports, old(progress), progress);
      failure := Report();
    }

    // ---- metadata ----------------------------------------------------------

    /** The first recorded directory at the path. */
    method FindDirectory(p: LocalPath) returns (r: Option<CreatedTarget>)
      ensures r.Some? ==> r.value in created && r.value.isDirectory && r.value.path == p
      ensures r.None? ==> forall t :: t in created ==> !(t.isDirectory && t.path == p)
    {
      for i := 0 to |created|
        invariant forall t :: t in created[..i] ==> !(t.isDirectory && t.path == p)
      {
        if created[i].isDirectory && created[i].path == p {
          return Some(created[i]);
        }
      }
      return None;
    }

    /** `apply_directory_metadata`. */
    method ApplyMetadata(ghost job: Job, dirs: seq<Entry>, ghost files: seq<Entry>, j: nat) returns (failure: Option<Status>)
      requires j < |dirs| && DistinctTargets(dirs) && Apart(dirs, files) && dirs[j] in job.entries && dirs[j].kind.Directory?
      requires MetadataDone(job, nodes, created, dirs, files, j + 1)
      modifies `nodes
      ensures Settled(job, nodes, created)
      ensures failure.None? ==> MetadataDone(job, nodes, created, dirs, files, j)
      ensures smooth ==> failure.None?
    {
      var e := dirs[j];
      var found := FindDirectory(e.target);
      assert DirectoryReady(nodes, created, dirs[j]);
      if found.None? {
        return Some(Io);
      }
      MetadataStep(job, nodes, created, dirs, files, j, found.value);
      var node := Examine(e.target);
      if node.Err? {
        return Some(node.status);
      }
      if node.value.None? {
        return Some(NotFound);
      }
      if node.value.value.id != found.value.identity {
        return Some(Unavailable);
      }
      failure := Chance();
      if failure.Some? {
        return;
      }
      nodes := Chmodded(nodes, e);
      failure := Chance();
    }

    method ApplyAllMetadata(ghost job: Job, dirs: seq<Entry>, ghost files: seq<Entry>) returns (failure: Option<Status>)
      requires DistinctTargets(dirs) && Apart(dirs, files) && forall e :: e in dirs ==> e.kind.Directory? && e in job.entries
      requires MetadataDone(job, nodes, created, dirs, files, |dirs|)
      modifies `nodes
      ensures Settled(job, nodes, created)
      ensures failure.None? ==> MetadataDone(job, nodes, created, dirs, files, 0)
      ensures smooth ==> failure.None?
    {
      for j := |dirs| downto 0
        invariant MetadataDone(job, nodes, created, dirs, files, j)
      {
        assert dirs[j] in dirs;
        failure := ApplyMetadata(job, dirs, files, j);
        if failure.Some? {
          return;
        }
      }
      failure := None;
    }

    // ---- the whole run -----------------------------------------------------

    /** The first report, the directories and the files, up to the first failure. */
    method Produce(ghost job: Job, ghost root: LocalPath, ghost k: Tally, dirs: seq<Entry>, files: seq<Entry>, policy: ConflictPolicy,
                   read: Reader)
      returns (failure: Option<Status>)
      requires job.before == nodes && job.policy == policy && job.read == read && DiskValid(nodes) && Bounded(read)
      requires Sorted(job, k, dirs, files) && stray == {} && created == [] && progress == k.start && reports == []
      modifies this
      ensures History(reports, progress)
      ensures stray != {} ==> failure.Some? && StrayLeft(job, nodes, created, stray)
      ensures stray == {} ==> Settled(job, nodes, created)
      ensures failure.None? ==> MetadataDone(job, nodes, created, dirs, files, |dirs|) && FileProgress(k, |files|, 0, progress)
      ensures smooth && Favourable(job, root, processId) && dirs == OfKind(job.entries, Directory) && files == OfKind(job.entries, File) ==>
        failure.None?
    {
      DirectoryProgressFine(k, 0, progress);
      failure := Report();
      if failure.Some? {
        SafeStart(job);
      } else {
        failure := CreateDirectories(job, root, k, dirs, policy);
        if failure.None? {
          FilesStart(job, nodes, created, dirs, files);
          failure := WriteFiles(job, root, k, read, dirs, files, policy);
          if failure.None? {
            MetadataStart(job, nodes, created, dirs, files);
          }
        }
      }
      if stray == {} {
        SafeIsSettled(job, nodes, created);
      }
    }

    /** Every phase up to the first failure. */
    method Attempt(ghost job: Job, ghost root: LocalPath, entries: seq<Entry>, policy: ConflictPolicy, read: Reader)
      returns (failure: Option<Status>, ghost late: bool)
      requires job == Job(nodes, entries, policy, read) && DiskValid(nodes) && DistinctTargets(entries) && Bounded(read)
      requires stray == {} && created == []
      modifies this
      ensures History(reports, progress)
      ensures stray != {} ==> failure.Some? && StrayLeft(job, nodes, created, stray)
      ensures stray == {} ==> Settled(job, nodes, created)
      ensures failure.None? ==> Placed(job, nodes) && FileProgress(TallyOf(entries, policy), |OfKind(entries, File)|, 0, progress)
      ensures smooth && Favourable(job, root, processId) ==> failure.None?
      ensures late ==> stray == {} && MetadataDone(job, nodes, created, OfKind(entries, Directory), OfKind(entries, File), 0)
    {
      late := false;
      progress, reports := FreshProgress(entries), [];
      var dirs, files := OfKind(entries, Directory), OfKind(entries, File);
      EntriesSorted(job);
      failure := Produce(job, root, TallyOf(entries, policy), dirs, files, policy, read);
      if failure.Some? {
        return;
      }
      failure := ApplyAllMetadata(job, dirs, files);
      if failure.Some? {
        return;
      }
      MetadataPlaces(job, nodes, created, dirs, files);
      late := true;
      failure := Chance();
    }

    /**
      A materialize run.  On success every entry is in place with its whole content and nothing else
      changed.  On failure, wherever it happens, the disk is rolled back, unless a made entry was lost
      track of, a removal is refused by the file system, or under Overwrite a reused directory is
      declared with a mode that shuts its owner out; for a failure after all metadata this is exactly
      when.  If no call fails by chance and nothing is in the way, the run succeeds.
     */
    method Run(entries: seq<Entry>, policy: ConflictPolicy, read: Reader, stuck: set<LocalPath>)
      returns (r: Result<Progress>, ghost late: bool)
      requires DiskValid(nodes) && DistinctTargets(entries) && Bounded(read) && stray == {} && created == []
      modifies this
      ensures var job := Job(old(nodes), entries, policy, read);
              && (r.Ok? ==> Placed(job, nodes))
              && (r.Err? && stray == {} && stuck == {} && StaysOpen(job) ==> RolledBack(job, nodes))
              && (r.Err? && late && stuck == {} ==> (RolledBack(job, nodes) <==> StaysOpen(job)))
              && (r.Err? && stray != {} ==> !RolledBack(job, nodes))
              && (smooth && entries != [] && Favourable(job, entries[0].target, processId) ==> r.Ok?)
      ensures History(reports, progress)
      ensures r.Ok? ==>
        && r.value == progress && progress.entriesDone == progress.entriesTotal && progress.filesWritten == progress.filesTotal
        && progress.bytesWritten == progress.bytesTotal
        && (!policy.Overwrite? ==> progress.directoriesCreated == progress.directoriesTotal)
    {
      ghost var job := Job(nodes, entries, policy, read);
      var failure;
      failure, late := Attempt(job, if entries == [] then [] else entries[0].target, entries, policy, read);
      if failure.None? {
        CompleteProgress(entries, policy, progress);
        return Ok(progress), late;
      }
      if stray == {} {
        CleanupRollsBackIff(job, nodes, created, stuck);
        if late && stuck == {} {
          LateFailureRollsBackIff(job, nodes, created, OfKind(entries, Directory), OfKind(entries, File));
        }
      } else {
        StrayStays(job, nodes, created, stray, stuck);
      }
      Cleanup(stuck);
      return Err(failure.value), late;
    }
  }
}
