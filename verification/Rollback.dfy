/** Why cleanup restores the disk: what is known about the created targets at every point of a materialize run. */
module Rollback {
  import opened Base
  import opened Disk

  /** The paths that cleanup should remove. */
  ghost function NewPaths(created: seq<CreatedTarget>): set<LocalPath> {
    set t | t in created && t.removable :: t.path
  }

  /** The recorded inode is in place. */
  ghost predicate InPlace(nodes: Nodes, t: CreatedTarget) {
    && t.path in nodes && nodes[t.path].id == t.identity
    && (if t.isDirectory then nodes[t.path].DirectoryNode? else nodes[t.path].FileNode?)
  }

  /** `d` was made as a directory by one of the targets. */
  ghost predicate MadeDirectory(created: seq<CreatedTarget>, d: LocalPath) {
    exists t :: t in created && t.removable && t.isDirectory && t.path == d
  }

  /** The target was put into an earlier one, or into an old directory that may be edited. */
  ghost predicate Attached(before: Nodes, created: seq<CreatedTarget>, i: nat)
    requires i < |created|
  {
    var p := created[i].path;
    && p != [] && p !in before
    && (if ParentOf(p) in before then Editable(before, p) else MadeDirectory(created[..i], ParentOf(p)))
    && p !in NewPaths(created[..i])
  }

  ghost predicate TargetOk(before: Nodes, now: Nodes, created: seq<CreatedTarget>, i: nat)
    requires i < |created|
  {
    created[i].removable ==> InPlace(now, created[i]) && Attached(before, created, i)
  }

  /** Removing the new paths leaves the old ones, and every removal can be done. */
  ghost predicate Undoable(before: Nodes, now: Nodes, created: seq<CreatedTarget>) {
    && now.Keys == before.Keys + NewPaths(created)
    && forall i {:trigger TargetOk(before, now, created, i)} :: 0 <= i < |created| ==> TargetOk(before, now, created, i)
  }

  /** An old directory stays a directory and keeps the owner's access. */
  ghost predicate StillOpen(before: Nodes, now: Nodes, p: LocalPath)
    requires p in before
  {
    && p in now && (now[p].DirectoryNode? <==> before[p].DirectoryNode?)
    && (Searchable(before[p]) ==> Searchable(now[p])) && (Writable(before[p]) ==> Writable(now[p]))
  }

  ghost predicate AccessKept(before: Nodes, now: Nodes) {
    forall p {:trigger StillOpen(before, now, p)} :: p in before ==> StillOpen(before, now, p)
  }

  /** A new entry directly inside an old directory may still be removed from it. */
  ghost predicate EntryWorkable(before: Nodes, now: Nodes, t: CreatedTarget) {
    t.removable && t.path != [] && ParentOf(t.path) in before ==> Editable(now, t.path)
  }

  ghost predicate Workable(before: Nodes, now: Nodes, created: seq<CreatedTarget>) {
    forall t {:trigger EntryWorkable(before, now, t)} :: t in created ==> EntryWorkable(before, now, t)
  }

  ghost predicate Agree(before: Nodes, a: Nodes, b: Nodes) {
    forall p :: p in before ==> p in a && p in b && a[p] == b[p]
  }

  // ---- small facts ---------------------------------------------------------

  lemma NewPathsSnoc(created: seq<CreatedTarget>, t: CreatedTarget)
    ensures NewPaths(created + [t]) == NewPaths(created) + if t.removable then {t.path} else {}
  {
  }

  lemma NewPathsInit(created: seq<CreatedTarget>)
    requires created != []
    ensures var init, t := created[..|created| - 1], created[|created| - 1];
            NewPaths(created) == NewPaths(init) + if t.removable then {t.path} else {}
  {
    var init, t := created[..|created| - 1], created[|created| - 1];
    assert created == init + [t];
    NewPathsSnoc(init, t);
  }

  lemma NewNotOld(before: Nodes, now: Nodes, created: seq<CreatedTarget>, p: LocalPath)
    requires Undoable(before, now, created) && p in NewPaths(created)
    ensures p !in before && p in now
  {
    var t :| t in created && t.removable && t.path == p;
    var i :| 0 <= i < |created| && created[i] == t;
    assert TargetOk(before, now, created, i);
  }

  lemma InitAttached(before: Nodes, created: seq<CreatedTarget>, i: nat)
    requires created != [] && i < |created| - 1
    ensures created[..|created| - 1][..i] == created[..i]
    ensures Attached(before, created, i) <==> Attached(before, created[..|created| - 1], i)
  {
    assert created[..|created| - 1][..i] == created[..i];
  }

  lemma SnocAttached(before: Nodes, created: seq<CreatedTarget>, t: CreatedTarget, i: nat)
    requires i < |created|
    ensures Attached(before, created + [t], i) <==> Attached(before, created, i)
  {
    assert (created + [t])[..i] == created[..i];
  }

  lemma {:induction false} ReachableKept(before: Nodes, now: Nodes, p: LocalPath)
    requires AccessKept(before, now) && Reachable(before, p)
    ensures Reachable(now, p)
    decreases |p|
  {
    if p != [] {
      assert StillOpen(before, now, ParentOf(p));
      ReachableKept(before, now, ParentOf(p));
    }
  }

  lemma {:induction false} ReachableAgrees(before: Nodes, a: Nodes, b: Nodes, p: LocalPath)
    requires DiskValid(before) && Agree(before, a, b) && (p == [] || ParentOf(p) in before)
    ensures Reachable(a, p) <==> Reachable(b, p)
    decreases |p|
  {
    if p != [] {
      assert Hung(before, ParentOf(p));
      ReachableAgrees(before, a, b, ParentOf(p));
    }
  }

  lemma WorkableAgrees(before: Nodes, a: Nodes, b: Nodes, created: seq<CreatedTarget>, fewer: seq<CreatedTarget>)
    requires DiskValid(before) && Agree(before, a, b) && Workable(before, a, created)
    requires forall t :: t in fewer ==> t in created
    ensures Workable(before, b, fewer)
  {
    forall t {:trigger EntryWorkable(before, b, t)} | t in fewer ensures EntryWorkable(before, b, t) {
      assert EntryWorkable(before, a, t);
      if t.path != [] && ParentOf(t.path) in before {
        ReachableAgrees(before, a, b, t.path);
      }
    }
  }

  lemma AccessIsWorkable(before: Nodes, now: Nodes, created: seq<CreatedTarget>)
    requires Undoable(before, now, created) && AccessKept(before, now)
    ensures Workable(before, now, created)
  {
    forall t {:trigger EntryWorkable(before, now, t)} | t in created ensures EntryWorkable(before, now, t) {
      var i :| 0 <= i < |created| && created[i] == t;
      assert TargetOk(before, now, created, i);
      if t.removable && ParentOf(t.path) in before {
        ReachableKept(before, now, t.path);
        assert StillOpen(before, now, ParentOf(t.path));
      }
    }
  }

  // ---- restoring permissions -----------------------------------------------

  /** Every made directory is open to its owner again. */
  ghost predicate MadeOpen(now: Nodes, created: seq<CreatedTarget>) {
    forall d {:trigger MadeDirectory(created, d)} :: MadeDirectory(created, d) ==>
      d in now && now[d].DirectoryNode? && now[d].mode == PRIVATE_DIRECTORY
  }

  /** Above a target there are only open made directories and old ones. */
  lemma {:induction false} TargetReachable(before: Nodes, now: Nodes, created: seq<CreatedTarget>, i: nat)
    requires Workable(before, now, created) && i < |created| && created[i].removable
    requires forall j {:trigger TargetOk(before, now, created, j)} :: 0 <= j <= i ==> TargetOk(before, now, created, j)
    requires MadeOpen(now, created[..i])
    ensures Editable(now, created[i].path)
  {
    var p := created[i].path;
    assert TargetOk(before, now, created, i);
    var d := ParentOf(p);
    if d in before {
      assert EntryWorkable(before, now, created[i]);
    } else {
      assert MadeDirectory(created[..i], d);
      var t :| t in created[..i] && t.removable && t.isDirectory && t.path == d;
      var j :| 0 <= j < i && created[j] == t;
      MadeOpenPrefix(now, created, j, i);
      TargetReachable(before, now, created, j);
    }
  }

  lemma MadeOpenPrefix(now: Nodes, created: seq<CreatedTarget>, j: nat, i: nat)
    requires j <= i <= |created| && MadeOpen(now, created[..i])
    ensures MadeOpen(now, created[..j])
  {
    forall d {:trigger MadeDirectory(created[..j], d)} | MadeDirectory(created[..j], d)
      ensures d in now && now[d].DirectoryNode? && now[d].mode == PRIVATE_DIRECTORY
    {
      var t :| t in created[..j] && t.removable && t.isDirectory && t.path == d;
      assert t in created[..i];
      assert MadeDirectory(created[..i], d);
    }
  }

  ghost predicate OnlyModes(a: Nodes, b: Nodes, created: seq<CreatedTarget>) {
    && a.Keys == b.Keys
    && forall p :: p in a && a[p] != b[p] ==> MadeDirectory(created, p) && b[p] == Opened(a[p])
  }

  lemma OnlyModesUndoable(before: Nodes, a: Nodes, b: Nodes, created: seq<CreatedTarget>)
    requires DiskValid(before) && Undoable(before, a, created) && Workable(before, a, created) && OnlyModes(a, b, created)
    ensures Undoable(before, b, created) && Agree(before, a, b) && Workable(before, b, created)
  {
    forall i {:trigger TargetOk(before, b, created, i)} | 0 <= i < |created| ensures TargetOk(before, b, created, i) {
      assert TargetOk(before, a, created, i);
    }
    OnlyModesAgree(before, a, b, created);
    WorkableAgrees(before, a, b, created, created);
  }

  lemma OnlyModesAgree(before: Nodes, a: Nodes, b: Nodes, created: seq<CreatedTarget>)
    requires Undoable(before, a, created) && OnlyModes(a, b, created)
    ensures Agree(before, a, b)
  {
    forall p | p in before && MadeDirectory(created, p) ensures false {
      MadeIsNew(created, p);
      NewNotOld(before, a, created, p);
    }
  }

  lemma MadeIsNew(created: seq<CreatedTarget>, p: LocalPath)
    requires MadeDirectory(created, p)
    ensures p in NewPaths(created)
  {
  }

  lemma RestoredStep(before: Nodes, start: Nodes, now: Nodes, created: seq<CreatedTarget>, k: nat)
    requires k < |created| && Undoable(before, now, created) && Workable(before, now, created)
    requires OnlyModes(start, now, created) && MadeOpen(now, created[..k])
    ensures OnlyModes(start, Restored(now, created[k]), created) && MadeOpen(Restored(now, created[k]), created[..k + 1])
  {
    var t, next := created[k], Restored(now, created[k]);
    assert TargetOk(before, now, created, k);
    assert created[..k + 1] == created[..k] + [t];
    if t.removable && t.isDirectory {
      TargetReachable(before, now, created, k);
      assert next == now[t.path := Opened(now[t.path])];
      assert MadeDirectory(created, t.path);
    }
    forall d {:trigger MadeDirectory(created[..k + 1], d)} | MadeDirectory(created[..k + 1], d)
      ensures d in next && next[d].DirectoryNode? && next[d].mode == PRIVATE_DIRECTORY
    {
      if d != t.path || !t.removable || !t.isDirectory {
        assert MadeDirectory(created[..k], d);
      }
    }
  }

  /** The first loop, parents first, reaches every made directory and opens it. */
  lemma {:induction false} RestoreOpens(before: Nodes, now: Nodes, created: seq<CreatedTarget>, k: nat)
    requires k <= |created| && DiskValid(before) && Undoable(before, now, created) && Workable(before, now, created)
    ensures var restored := RestoreAll(now, created[..k]);
            && OnlyModes(now, restored, created) && MadeOpen(restored, created[..k])
            && Undoable(before, restored, created) && Agree(before, now, restored) && Workable(before, restored, created)
  {
    if k > 0 {
      RestoreOpens(before, now, created, k - 1);
      assert created[..k][..k - 1] == created[..k - 1];
      var restored := RestoreAll(now, created[..k - 1]);
      RestoredStep(before, now, restored, created, k - 1);
    }
    OnlyModesUndoable(before, now, RestoreAll(now, created[..k]), created);
  }

  // ---- removing ------------------------------------------------------------

  /** When the last target is removed, nothing is left inside it. */
  lemma LastIsEmpty(before: Nodes, now: Nodes, created: seq<CreatedTarget>)
    requires DiskValid(before) && created != [] && Undoable(before, now, created) && created[|created| - 1].removable
    ensures Empty(now, created[|created| - 1].path)
  {
    var last := |created| - 1;
    var p := created[last].path;
    assert TargetOk(before, now, created, last);
    forall q | q in now ensures !InDirectory(q, p) {
      if q in before {
        assert Hung(before, q);
      } else {
        var t :| t in created && t.removable && t.path == q;
        var j :| 0 <= j < |created| && created[j] == t;
        assert TargetOk(before, now, created, j);
        if q != [] && ParentOf(q) !in before {
          var u :| u in created[..j] && u.removable && u.isDirectory && u.path == ParentOf(q);
          assert u in created[..last];
        }
      }
    }
  }

  lemma RemovedLast(before: Nodes, now: Nodes, created: seq<CreatedTarget>, stuck: set<LocalPath>)
    requires DiskValid(before) && created != [] && Undoable(before, now, created) && Workable(before, now, created)
    requires MadeOpen(now, created) && stuck !! NewPaths(created)
    ensures var t := created[|created| - 1];
            Removed(now, t, stuck) == if t.removable then now - {t.path} else now
  {
    var last := |created| - 1;
    var t := created[last];
    if t.removable {
      assert t.path in NewPaths(created);
      assert TargetOk(before, now, created, last);
      assert created[..|created|] == created;
      MadeOpenPrefix(now, created, last, |created|);
      TargetReachable(before, now, created, last);
      LastIsEmpty(before, now, created);
    }
  }

  lemma WithoutLast(before: Nodes, now: Nodes, created: seq<CreatedTarget>)
    requires DiskValid(before) && created != [] && Undoable(before, now, created) && Workable(before, now, created) && MadeOpen(now, created)
    ensures var init, t := created[..|created| - 1], created[|created| - 1];
            var next := if t.removable then now - {t.path} else now;
            Undoable(before, next, init) && Workable(before, next, init) && MadeOpen(next, init)
  {
    var last := |created| - 1;
    var init, t := created[..last], created[last];
    var next := if t.removable then now - {t.path} else now;
    NewPathsInit(created);
    assert TargetOk(before, now, created, last);
    forall i {:trigger TargetOk(before, next, init, i)} | 0 <= i < last ensures TargetOk(before, next, init, i) {
      assert TargetOk(before, now, created, i);
      InitAttached(before, created, i);
      assert init[i] in init;
    }
    WorkableAgrees(before, now, next, created, init);
    assert created[..|created|] == created;
    MadeOpenPrefix(now, created, last, |created|);
    forall d {:trigger MadeDirectory(init, d)} | MadeDirectory(init, d)
      ensures d in next && next[d].DirectoryNode? && next[d].mode == PRIVATE_DIRECTORY
    {
      MadeIsNew(init, d);
    }
  }

  /** The second loop, children first, removes every new path and nothing else. */
  lemma {:induction false} RemoveExact(before: Nodes, now: Nodes, created: seq<CreatedTarget>, stuck: set<LocalPath>)
    requires DiskValid(before) && Undoable(before, now, created) && Workable(before, now, created)
    requires MadeOpen(now, created) && stuck !! NewPaths(created)
    ensures RemoveAll(now, created, stuck) == now - NewPaths(created)
    decreases |created|
  {
    if created == [] {
      assert NewPaths(created) == {};
    } else {
      var init, t := created[..|created| - 1], created[|created| - 1];
      RemovedLast(before, now, created, stuck);
      WithoutLast(before, now, created);
      NewPathsInit(created);
      RemoveExact(before, Removed(now, t, stuck), init, stuck);
    }
  }

  lemma {:induction false} StuckStays(nodes: Nodes, created: seq<CreatedTarget>, stuck: set<LocalPath>, p: LocalPath)
    requires p in nodes && p in stuck
    ensures p in RemoveAll(nodes, created, stuck)
    decreases |created|
  {
    if created != [] {
      StuckStays(Removed(nodes, created[|created| - 1], stuck), created[..|created| - 1], stuck, p);
    }
  }

  ghost function Old(before: Nodes, now: Nodes): Nodes
    requires before.Keys <= now.Keys
  {
    map p | p in before :: now[p]
  }

  /** What an old directory no longer lets go of stays. */
  lemma {:induction false} BlockedStays(before: Nodes, nodes: Nodes, now: Nodes, created: seq<CreatedTarget>, stuck: set<LocalPath>, p: LocalPath)
    requires DiskValid(before) && Agree(before, now, nodes) && p in nodes && p != [] && ParentOf(p) in before && !Editable(now, p)
    requires forall t :: t in created && t.removable ==> t.path !in before
    ensures p in RemoveAll(nodes, created, stuck)
    decreases |created|
  {
    if created != [] {
      ReachableAgrees(before, now, nodes, p);
      var last := created[|created| - 1];
      assert last in created;
      BlockedStays(before, Removed(nodes, last, stuck), now, created[..|created| - 1], stuck, p);
    }
  }

  /**
    Cleanup leaves the old set of paths if and only if no removal is refused by the file system and
    every new entry may still be removed from the old directory it is in; then it removes exactly
    the new paths and keeps every old inode as it stands.
   */
  lemma CleanupExactIff(before: Nodes, now: Nodes, created: seq<CreatedTarget>, stuck: set<LocalPath>)
    requires DiskValid(before) && Undoable(before, now, created)
    ensures CleanedUp(now, created, stuck).Keys == before.Keys <==> stuck !! NewPaths(created) && Workable(before, now, created)
    ensures stuck !! NewPaths(created) && Workable(before, now, created) ==> CleanedUp(now, created, stuck) == Old(before, now)
  {
    var restored := RestoreAll(now, created);
    assert created[..|created|] == created;
    if stuck !! NewPaths(created) && Workable(before, now, created) {
      RestoreOpens(before, now, created, |created|);
      RemoveExact(before, restored, created, stuck);
      CleanedIsOld(before, now, restored, created);
    } else {
      LeftBehind(before, now, created, stuck);
    }
  }

  lemma LeftBehind(before: Nodes, now: Nodes, created: seq<CreatedTarget>, stuck: set<LocalPath>)
    requires DiskValid(before) && Undoable(before, now, created)
    requires !(stuck !! NewPaths(created)) || !Workable(before, now, created)
    ensures exists p :: p !in before && p in CleanedUp(now, created, stuck)
  {
    var restored := RestoreAll(now, created);
    RestoreOnlyOwn(now, created);
    RestoredKeys(now, created);
    if !(stuck !! NewPaths(created)) {
      var p :| p in stuck && p in NewPaths(created);
      NewNotOld(before, now, created, p);
      StuckStays(restored, created, stuck, p);
    } else {
      var t :| t in created && !EntryWorkable(before, now, t);
      assert t.path in NewPaths(created);
      NewNotOld(before, now, created, t.path);
      RestoredAgrees(before, now, created);
      forall u | u in created && u.removable ensures u.path !in before {
        assert u.path in NewPaths(created);
        NewNotOld(before, now, created, u.path);
      }
      BlockedStays(before, restored, now, created, stuck, t.path);
    }
  }

  lemma {:induction false} RestoredKeys(now: Nodes, created: seq<CreatedTarget>)
    ensures RestoreAll(now, created).Keys == now.Keys
  {
    if created != [] {
      RestoredKeys(now, created[..|created| - 1]);
    }
  }

  lemma RestoredAgrees(before: Nodes, now: Nodes, created: seq<CreatedTarget>)
    requires Undoable(before, now, created)
    ensures Agree(before, now, RestoreAll(now, created))
  {
    var restored := RestoreAll(now, created);
    RestoreOnlyOwn(now, created);
    RestoredKeys(now, created);
    forall p | p in before ensures p in now && now[p] == restored[p] {
      assert Spared(now, restored, created, p);
      if Covers(created, p, now[p].id) {
        assert p in NewPaths(created);
        NewNotOld(before, now, created, p);
      }
    }
  }

  lemma CleanedIsOld(before: Nodes, now: Nodes, restored: Nodes, created: seq<CreatedTarget>)
    requires Undoable(before, now, created) && Agree(before, now, restored) && restored.Keys == now.Keys
    ensures restored - NewPaths(created) == Old(before, now)
  {
    forall p | p in now && p in NewPaths(created) ensures p !in before {
      NewNotOld(before, now, created, p);
    }
  }

  // ---- what each step of a run keeps ---------------------------------------

  /** Old directories are untouched and old non-directories stay so. */
  ghost predicate DirectorySame(before: Nodes, now: Nodes, p: LocalPath)
    requires p in before
  {
    p in now && (if before[p].DirectoryNode? then now[p] == before[p] else !now[p].DirectoryNode?)
  }

  ghost predicate DirectoriesSame(before: Nodes, now: Nodes) {
    forall p {:trigger DirectorySame(before, now, p)} :: p in before ==> DirectorySame(before, now, p)
  }

  lemma SameKeepsAccess(before: Nodes, now: Nodes)
    requires DirectoriesSame(before, now)
    ensures AccessKept(before, now)
  {
    forall p {:trigger StillOpen(before, now, p)} | p in before ensures StillOpen(before, now, p) {
      assert DirectorySame(before, now, p);
    }
  }

  lemma {:induction false} ReachableBefore(before: Nodes, now: Nodes, p: LocalPath)
    requires DiskValid(before) && DirectoriesSame(before, now) && Reachable(now, p)
    requires p == [] || ParentOf(p) in before
    ensures Reachable(before, p)
    decreases |p|
  {
    if p != [] {
      var d := ParentOf(p);
      assert DirectorySame(before, now, d);
      assert Hung(before, d);
      ReachableBefore(before, now, d);
    }
  }

  /** A new entry in a reachable, writable directory. */
  lemma CreateUndoable(before: Nodes, now: Nodes, created: seq<CreatedTarget>, t: CreatedTarget, node: Inode)
    requires DiskValid(before) && Undoable(before, now, created) && DirectoriesSame(before, now)
    requires t.removable && t.path !in now && Editable(now, t.path) && InPlace(now[t.path := node], t)
    ensures Undoable(before, now[t.path := node], created + [t]) && DirectoriesSame(before, now[t.path := node])
  {
    var next, more := now[t.path := node], created + [t];
    NewPathsSnoc(created, t);
    forall i {:trigger TargetOk(before, next, more, i)} | 0 <= i < |more| ensures TargetOk(before, next, more, i) {
      if i < |created| {
        assert TargetOk(before, now, created, i);
        SnocAttached(before, created, t, i);
      } else {
        NewAttached(before, now, created, t);
      }
    }
    forall p {:trigger DirectorySame(before, next, p)} | p in before ensures DirectorySame(before, next, p) {
      assert DirectorySame(before, now, p);
    }
  }

  lemma NewAttached(before: Nodes, now: Nodes, created: seq<CreatedTarget>, t: CreatedTarget)
    requires DiskValid(before) && Undoable(before, now, created) && DirectoriesSame(before, now)
    requires t.removable && t.path !in now && Editable(now, t.path)
    ensures Attached(before, created + [t], |created|)
  {
    assert (created + [t])[..|created|] == created;
    var d := ParentOf(t.path);
    if d in before {
      ReachableBefore(before, now, t.path);
      assert DirectorySame(before, now, d);
    } else {
      var u :| u in created && u.removable && u.path == d;
      var i :| 0 <= i < |created| && created[i] == u;
      assert TargetOk(before, now, created, i);
    }
  }

  /** A target that was there before is only taken over. */
  lemma TakeOverUndoable(before: Nodes, now: Nodes, created: seq<CreatedTarget>, t: CreatedTarget)
    requires Undoable(before, now, created) && !t.removable
    ensures Undoable(before, now, created + [t])
  {
    NewPathsSnoc(created, t);
    forall i {:trigger TargetOk(before, now, created + [t], i)} | 0 <= i < |created| + 1 ensures TargetOk(before, now, created + [t], i) {
      if i < |created| {
        assert TargetOk(before, now, created, i);
        SnocAttached(before, created, t, i);
      }
    }
  }

  /** Writing to or changing the mode of an entry in place. */
  lemma UpdateUndoable(before: Nodes, now: Nodes, created: seq<CreatedTarget>, p: LocalPath, node: Inode)
    requires Undoable(before, now, created) && p in now && node.id == now[p].id
    requires node.DirectoryNode? == now[p].DirectoryNode? && node.FileNode? == now[p].FileNode?
    ensures Undoable(before, now[p := node], created)
  {
    forall i {:trigger TargetOk(before, now[p := node], created, i)} | 0 <= i < |created| ensures TargetOk(before, now[p := node], created, i) {
      assert TargetOk(before, now, created, i);
    }
  }

  /** Renaming the temporary file over an old file. */
  lemma ReplaceUndoable(before: Nodes, now: Nodes, created: seq<CreatedTarget>, temp: CreatedTarget, final: LocalPath, t: CreatedTarget)
    requires Undoable(before, now, created + [temp]) && temp.removable && !t.removable && final in before
    ensures Undoable(before, (now - {temp.path})[final := now[temp.path]], created + [t])
  {
    var next := (now - {temp.path})[final := now[temp.path]];
    NewPathsSnoc(created, temp);
    NewPathsSnoc(created, t);
    assert TargetOk(before, now, created + [temp], |created|);
    assert (created + [temp])[..|created|] == created;
    forall i {:trigger TargetOk(before, next, created + [t], i)} | 0 <= i < |created| + 1 ensures TargetOk(before, next, created + [t], i) {
      if i < |created| {
        assert TargetOk(before, now, created + [temp], i);
        SnocAttached(before, created, temp, i);
        SnocAttached(before, created, t, i);
        assert created[i] in created;
      }
    }
  }
}
