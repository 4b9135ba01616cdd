/** Reading a directory in several replies, resuming at the returned offset. */
module Paging {
  import opened Base
  import opened Paths
  import opened Tree
  import opened Runtime
  import opened Lifecycle
  import opened Namespace

  /** The full listing of a directory: itself, its parent, then its children. */
  function DirectoryEntries(s: State, inode: nat): Result<seq<DirectoryEntry>> {
    var entry := LookupInode(s, inode);
    if entry.Err? then Err(entry.status)
    else
      var parent, children := ParentInode(s, entry.value), ReadDir(s, inode);
      if parent.Err? then Err(parent.status)
      else if children.Err? then children
      else
        var self := if entry.value.MountRoot? then FUSE_ROOT_INODE else entry.value.node.inode;
        Ok([DirectoryEntry(".", self, Directory), DirectoryEntry("..", parent.value, Directory)] + children.value)
  }

  /** One reply slot: an entry and the offset at which to resume after it. */
  datatype Slot = Slot(entry: DirectoryEntry, next: nat)

  function PageLength(entries: seq<DirectoryEntry>, offset: nat, room: nat): nat {
    if offset >= |entries| then 0 else Min(room, |entries| - offset)
  }

  /** The slots from `offset` on that fit into a buffer with room for `room` entries. */
  function Page(entries: seq<DirectoryEntry>, offset: nat, room: nat): seq<Slot> {
    seq(PageLength(entries, offset, room),
        j requires 0 <= j < PageLength(entries, offset, room) => Slot(entries[offset + j], offset + j + 1))
  }

  method Readdir(entries: seq<DirectoryEntry>, offset: nat, room: nat) returns (reply: seq<Slot>)
    ensures reply == Page(entries, offset, room)
  {
    reply := [];
    var index := offset;
    while index < |entries|
      invariant index == offset + |reply| && |reply| <= PageLength(entries, offset, room)
      invariant forall j :: 0 <= j < |reply| ==> reply[j] == Slot(entries[offset + j], offset + j + 1)
    {
      if |reply| == room {
        break;
      }
      reply := reply + [Slot(entries[index], index + 1)];
      index := index + 1;
    }
  }

  // ---- a sequence of calls -------------------------------------------------

  /** The offset used by call `n`, when call `i` sees `listings[i]` and has room for `rooms[i]` entries. */
  ghost function OffsetAt(listings: seq<seq<DirectoryEntry>>, rooms: seq<nat>, n: nat): nat
    requires n <= |listings| == |rooms|
  {
    if n == 0 then 0
    else
      var offset := OffsetAt(listings, rooms, n - 1);
      var page := Page(listings[n - 1], offset, rooms[n - 1]);
      if page == [] then offset else page[|page| - 1].next
  }

  ghost function EntriesOf(page: seq<Slot>): seq<DirectoryEntry> {
    seq(|page|, j requires 0 <= j < |page| => page[j].entry)
  }

  ghost function Delivered(listings: seq<seq<DirectoryEntry>>, rooms: seq<nat>, n: nat): seq<DirectoryEntry>
    requires n <= |listings| == |rooms|
  {
    if n == 0 then []
    else Delivered(listings, rooms, n - 1) +
         EntriesOf(Page(listings[n - 1], OffsetAt(listings, rooms, n - 1), rooms[n - 1]))
  }

  lemma PageExtends(entries: seq<DirectoryEntry>, offset: nat, room: nat)
    requires offset <= |entries|
    ensures var page := Page(entries, offset, room);
            && offset + |page| <= |entries|
            && entries[..offset] + EntriesOf(page) == entries[..offset + |page|]
            && (page != [] ==> page[|page| - 1].next == offset + |page|)
            && (room > 0 && offset < |entries| ==> page != [])
  {
  }

  lemma {:induction false} StablePaging(listings: seq<seq<DirectoryEntry>>, rooms: seq<nat>, entries: seq<DirectoryEntry>, n: nat)
    requires n <= |listings| == |rooms|
    requires forall i :: 0 <= i < n ==> listings[i] == entries && rooms[i] > 0
    ensures Min(n, |entries|) <= OffsetAt(listings, rooms, n) <= |entries|
    ensures Delivered(listings, rooms, n) == entries[..OffsetAt(listings, rooms, n)]
  {
    if n > 0 {
      StablePaging(listings, rooms, entries, n - 1);
      PageExtends(entries, OffsetAt(listings, rooms, n - 1), rooms[n - 1]);
    }
  }

  // ---- directories inside a promise ----------------------------------------

  lemma LookupStable(a: State, b: State, inode: nat) returns (pid: string, p: string)
    requires Valid(a) && Valid(b) && Evolves(a, b) && inode != FUSE_ROOT_INODE && LookupInode(a, inode).Ok?
    ensures NodeAt(a, pid, p) && NodeAt(b, pid, p) && NodeKept(Node(a, pid, p), Node(b, pid, p))
    ensures Node(a, pid, p).inode == inode && PromiseKept(a.promises[pid], b.promises[pid])
    ensures LookupInode(a, inode) == Ok(NodeEntry(pid, Node(a, pid, p)))
    ensures LookupInode(b, inode) == Ok(NodeEntry(pid, Node(b, pid, p)))
  {
    pid, p := FoundAt(a, inode);
    assert NodeKept(a.promises[pid].tree.nodes[p], b.promises[pid].tree.nodes[p]);
    LookupInodeExact(b, inode, pid, p);
  }

  lemma ReadDirStable(a: State, b: State, pid: string, d: string)
    requires Valid(a) && Valid(b) && NodeAt(a, pid, d) && NodeAt(b, pid, d) && Node(a, pid, d).kind.Directory?
    requires PromiseKept(a.promises[pid], b.promises[pid])
    ensures ReadDir(b, Node(a, pid, d).inode) == ReadDir(a, Node(a, pid, d).inode)
  {
    assert NodeKept(Node(a, pid, d), Node(b, pid, d));
    DirectoryListing(a, pid, d);
    DirectoryListing(b, pid, d);
    var paths, inode := InOrder(a.promises[pid].tree.children[d]), Node(a, pid, d).inode;
    forall i | 0 <= i < |paths| ensures ReadDir(b, inode).value[i] == ReadDir(a, inode).value[i] {
      assert NodeKept(a.promises[pid].tree.nodes[paths[i]], b.promises[pid].tree.nodes[paths[i]]);
    }
    assert ReadDir(b, inode).value == ReadDir(a, inode).value;
  }

  /** Commits, disconnects and marks never change the listing of a directory inside a promise. */
  lemma ListingStable(a: State, b: State, inode: nat)
    requires Valid(a) && Valid(b) && Evolves(a, b) && inode != FUSE_ROOT_INODE
    requires DirectoryEntries(a, inode).Ok?
    ensures DirectoryEntries(b, inode) == DirectoryEntries(a, inode)
  {
    var pid, d := LookupStable(a, b, inode);
    ReadDirStable(a, b, pid, d);
    var parent := Node(a, pid, d).parentPath;
    if parent.Some? {
      assert NodeKept(a.promises[pid].tree.nodes[parent.value], b.promises[pid].tree.nodes[parent.value]);
    }
  }

  lemma GoodListedName(s: State, inode: nat, i: nat)
    requires Valid(s) && ReadDir(s, inode).Ok? && i < |ReadDir(s, inode).value|
    ensures GoodName(ReadDir(s, inode).value[i].name)
  {
    var e := ReadDir(s, inode).value[i];
    assert Lists(s, inode, e);
    NamespaceAgreement(s, inode, e);
  }

  /** A full listing is the two dot entries and then the directory's children. */
  lemma EntriesShape(s: State, inode: nat)
    requires DirectoryEntries(s, inode).Ok?
    ensures ReadDir(s, inode).Ok? && |DirectoryEntries(s, inode).value| == |ReadDir(s, inode).value| + 2
    ensures var entries := DirectoryEntries(s, inode).value;
            && entries[0].name == "." && entries[1].name == ".."
            && forall i :: 2 <= i < |entries| ==> entries[i] == ReadDir(s, inode).value[i - 2]
  {
  }

  /** Inside a promise "." is the directory itself and ".." its parent; a promise hangs in the mount root. */
  lemma DotInodes(s: State, pid: string, d: string)
    requires Valid(s) && NodeAt(s, pid, d) && Node(s, pid, d).kind.Directory?
    ensures var listing := DirectoryEntries(s, Node(s, pid, d).inode);
            && listing.Ok? && |listing.value| >= 2
            && listing.value[0] == DirectoryEntry(".", Node(s, pid, d).inode, Directory)
            && (d == "" ==> listing.value[1] == DirectoryEntry("..", FUSE_ROOT_INODE, Directory))
            && (d != "" ==> NodeAt(s, pid, ParentPath(d))
                            && listing.value[1] == DirectoryEntry("..", Node(s, pid, ParentPath(d)).inode, Directory))
  {
    DirectoryFound(s, pid, d);
    DirectoryListing(s, pid, d);
    assert NodeValid(s.promises[pid].tree, d);
  }

  ghost predicate GoodNamesOnce(children: seq<DirectoryEntry>) {
    && (forall i :: 0 <= i < |children| ==> GoodName(children[i].name))
    && (forall i, j :: 0 <= i < |children| && 0 <= j < |children| && children[i].name == children[j].name ==> i == j)
  }

  lemma ChildrenOnce(s: State, inode: nat)
    requires Valid(s) && ReadDir(s, inode).Ok?
    ensures GoodNamesOnce(ReadDir(s, inode).value)
  {
    var children := ReadDir(s, inode).value;
    forall i | 0 <= i < |children| ensures GoodName(children[i].name) {
      GoodListedName(s, inode, i);
    }
    forall i, j | 0 <= i < |children| && 0 <= j < |children| && children[i].name == children[j].name ensures i == j {
      ListedOnce(s, inode, i, j);
    }
  }

  lemma ShapedOnce(entries: seq<DirectoryEntry>, children: seq<DirectoryEntry>, i: nat, j: nat)
    requires |entries| == |children| + 2 && entries[0].name == "." && entries[1].name == ".."
    requires forall k :: 2 <= k < |entries| ==> entries[k] == children[k - 2]
    requires GoodNamesOnce(children) && i < |entries| && j < |entries|
    ensures entries[i].name == entries[j].name ==> i == j
  {
    DotsAreNoNames();
    if i >= 2 && j >= 2 {
      assert entries[i] == children[i - 2] && entries[j] == children[j - 2];
    }
  }

  /** A full listing holds each name once. */
  lemma EntriesOnce(s: State, inode: nat, i: nat, j: nat)
    requires Valid(s) && DirectoryEntries(s, inode).Ok?
    requires i < |DirectoryEntries(s, inode).value| && j < |DirectoryEntries(s, inode).value|
    ensures DirectoryEntries(s, inode).value[i].name == DirectoryEntries(s, inode).value[j].name ==> i == j
  {
    EntriesShape(s, inode);
    ChildrenOnce(s, inode);
    ShapedOnce(DirectoryEntries(s, inode).value, ReadDir(s, inode).value, i, j);
  }

  lemma DotsAreNoNames()
    ensures !GoodName(".") && !GoodName("..") && "." != ".."
  {
  }

  /** The listing that a call in state `s` pages through; an error delivers nothing. */
  ghost function ListingAt(s: State, inode: nat): seq<DirectoryEntry> {
    var r := DirectoryEntries(s, inode);
    if r.Ok? then r.value else []
  }

  ghost function Listings(states: seq<State>, inode: nat): seq<seq<DirectoryEntry>> {
    seq(|states|, i requires 0 <= i < |states| => ListingAt(states[i], inode))
  }

  /** All calls together deliver a prefix of `entries`, and all of it once there were enough calls. */
  ghost predicate DeliversPrefix(listings: seq<seq<DirectoryEntry>>, rooms: seq<nat>, entries: seq<DirectoryEntry>)
    requires |listings| == |rooms|
  {
    var n := |listings|;
    && OffsetAt(listings, rooms, n) <= |entries|
    && Delivered(listings, rooms, n) == entries[..OffsetAt(listings, rooms, n)]
    && (n >= |entries| ==> Delivered(listings, rooms, n) == entries)
  }

  ghost predicate Later(s: State, t: State) {
    Valid(t) && Evolves(s, t)
  }

  lemma ListingLater(s: State, t: State, inode: nat)
    requires Valid(s) && Later(s, t) && inode != FUSE_ROOT_INODE && DirectoryEntries(s, inode).Ok?
    ensures ListingAt(t, inode) == ListingAt(s, inode)
  {
    ListingStable(s, t, inode);
  }

  /**
    Call `i` runs in `states[i]`, a later state of the same runtime.  With at least one slot per
    reply the calls deliver a growing prefix of the listing, complete after at most as many
    calls as the listing has entries, with nothing skipped or repeated.
   */
  lemma PagingExact(s: State, states: seq<State>, inode: nat, rooms: seq<nat>)
    requires inode != FUSE_ROOT_INODE && |states| == |rooms|
    requires Valid(s) && DirectoryEntries(s, inode).Ok?
    requires forall i {:trigger Later(s, states[i])} :: 0 <= i < |states| ==> Later(s, states[i])
    requires forall i :: 0 <= i < |rooms| ==> rooms[i] > 0
    ensures DeliversPrefix(Listings(states, inode), rooms, ListingAt(s, inode))
  {
    forall i | 0 <= i < |states| ensures ListingAt(states[i], inode) == ListingAt(s, inode) {
      assert Later(s, states[i]);
      ListingLater(s, states[i], inode);
    }
    SameListings(states, inode, rooms, ListingAt(s, inode));
  }

  lemma SameListings(states: seq<State>, inode: nat, rooms: seq<nat>, entries: seq<DirectoryEntry>)
    requires |states| == |rooms|
    requires forall i :: 0 <= i < |states| ==> ListingAt(states[i], inode) == entries && rooms[i] > 0
    ensures DeliversPrefix(Listings(states, inode), rooms, entries)
  {
    StablePaging(Listings(states, inode), rooms, entries, |states|);
  }

  // ---- the mount root ------------------------------------------------------

  lemma IndexBelow(s: set<string>, i: nat, j: nat)
    requires i < |InOrder(s)| && j < |InOrder(s)|
    ensures Below(InOrder(s)[i], InOrder(s)[j]) <==> i < j
  {
    InOrderSorted(s);
    BelowTotal(InOrder(s)[i], InOrder(s)[j]);
    InOrderDistinct(s, i, j);
    if j < i { assert Below(InOrder(s)[j], InOrder(s)[i]); }
  }

  ghost predicate SamePrefix(a: seq<string>, b: seq<string>, k: nat) {
    k <= |a| && k <= |b| && forall i :: 0 <= i < k ==> a[i] == b[i]
  }

  lemma NextInPrefix(a: set<string>, b: set<string>, k: nat)
    requires a <= b && k < |InOrder(a)| && SamePrefix(InOrder(a), InOrder(b), k)
    requires forall x :: x in b && x !in a ==> Below(InOrder(a)[k], x)
    ensures SamePrefix(InOrder(a), InOrder(b), k + 1)
  {
    var x := InOrder(a)[k];
    InOrderDistinct(a, k, k);
    var m := InOrderIndex(b, x);
    if m < k {
      InOrderDistinct(a, m, k);
    } else if m > k {
      var y := InOrder(b)[k];
      InOrderDistinct(b, k, m);
      IndexBelow(b, k, m);
      BelowTotal(x, y);
      var i := InOrderIndex(a, y);
      IndexBelow(a, i, k);
      InOrderDistinct(b, i, k);
    }
  }

  lemma {:induction false} LaterKeysKeepPrefix(a: set<string>, b: set<string>, k: nat)
    requires a <= b && k <= |InOrder(a)|
    requires k > 0 ==> forall x :: x in b && x !in a ==> Below(InOrder(a)[k - 1], x)
    ensures SamePrefix(InOrder(a), InOrder(b), k)
  {
    if k > 0 {
      if k > 1 {
        forall x | x in b && x !in a ensures Below(InOrder(a)[k - 2], x) {
          IndexBelow(a, k - 2, k - 1);
          BelowTransitive(InOrder(a)[k - 2], InOrder(a)[k - 1], x);
        }
      }
      LaterKeysKeepPrefix(a, b, k - 1);
      NextInPrefix(a, b, k - 1);
    }
  }

  /** Adding keys keeps the first `k` in place exactly when every new key sorts after them. */
  lemma PrefixKeptIff(a: set<string>, b: set<string>, k: nat)
    requires a <= b && 0 < k <= |InOrder(a)|
    ensures SamePrefix(InOrder(a), InOrder(b), k) <==> forall x :: x in b && x !in a ==> Below(InOrder(a)[k - 1], x)
  {
    if SamePrefix(InOrder(a), InOrder(b), k) {
      forall x | x in b && x !in a ensures Below(InOrder(a)[k - 1], x) {
        var m := InOrderIndex(b, x);
        if m < k { InOrderDistinct(a, m, m); }
        IndexBelow(b, k - 1, m);
      }
    } else {
      if forall x :: x in b && x !in a ==> Below(InOrder(a)[k - 1], x) {
        LaterKeysKeepPrefix(a, b, k);
      }
    }
  }

  lemma SubsetCount(a: set<string>, b: set<string>)
    requires a <= b
    ensures |InOrder(a)| <= |InOrder(b)|
  {
    InOrderSorted(a);
    InOrderSorted(b);
    assert b == a + (b - a);
  }

  /** If the first `k` keys of a larger set are all old, they are the first `k` old keys. */
  lemma {:induction false} OldKeysFirst(a: set<string>, b: set<string>, k: nat)
    requires a <= b && k <= |InOrder(b)| && forall i :: 0 <= i < k ==> InOrder(b)[i] in a
    ensures SamePrefix(InOrder(a), InOrder(b), k)
  {
    if k > 0 {
      OldKeysFirst(a, b, k - 1);
      var m := InOrderIndex(a, InOrder(b)[k - 1]);
      KeyKeepsPlace(a, b, k - 1, m);
    }
  }

  /** The next key of `b` after a common prefix is at the same place in `a`. */
  lemma KeyKeepsPlace(a: set<string>, b: set<string>, k: nat, m: nat)
    requires a <= b && m < |InOrder(a)| && k < |InOrder(b)| && SamePrefix(InOrder(a), InOrder(b), k)
    requires InOrder(a)[m] == InOrder(b)[k]
    ensures m == k
  {
    if m < k {
      InOrderDistinct(b, m, k);
    } else if k < m {
      InOrderDistinct(a, k, m);
      IndexBelow(a, k, m);
      var j := InOrderIndex(b, InOrder(a)[k]);
      IndexBelow(b, j, k);
      InOrderDistinct(a, j, k);
    }
  }

  // ---- any number of calls on the mount root -------------------------------

  /** What one call on the mount root sees: its listing and the promises behind it. */
  datatype RootView = RootView(entries: seq<DirectoryEntry>, ids: set<string>)

  ghost predicate ViewValid(v: RootView) {
    var ids := InOrder(v.ids);
    && |v.entries| == |ids| + 2
    && v.entries[0] == DirectoryEntry(".", FUSE_ROOT_INODE, Directory)
    && v.entries[1] == DirectoryEntry("..", FUSE_ROOT_INODE, Directory)
    && forall i :: 0 <= i < |ids| ==> v.entries[i + 2].name == ids[i]
  }

  /** Promises are only added, and a promise keeps its entry. */
  ghost predicate ViewGrows(v: RootView, w: RootView) {
    && v.ids <= w.ids
    && forall x :: 2 <= x < |v.entries| && x < |w.entries| && v.entries[x].name == w.entries[x].name ==> v.entries[x] == w.entries[x]
  }

  ghost predicate GrowsAt(views: seq<RootView>, i: nat) {
    i + 1 < |views| ==> ViewGrows(views[i], views[i + 1])
  }

  ghost predicate ViewsGrow(views: seq<RootView>) {
    && (forall i {:trigger ViewValid(views[i])} :: 0 <= i < |views| ==> ViewValid(views[i]))
    && (forall i {:trigger GrowsAt(views, i)} :: 0 <= i ==> GrowsAt(views, i))
  }

  ghost function EntriesIn(views: seq<RootView>): seq<seq<DirectoryEntry>> {
    seq(|views|, i requires 0 <= i < |views| => views[i].entries)
  }

  ghost function DeliveredBy(views: seq<RootView>, rooms: seq<nat>, m: nat): seq<DirectoryEntry>
    requires m <= |views| == |rooms|
  {
    Delivered(EntriesIn(views), rooms, m)
  }

  /** The dot entries first, then promises among `ids`. */
  ghost predicate Known(delivered: seq<DirectoryEntry>, v: RootView)
    requires |delivered| <= |v.entries|
  {
    && (forall x :: 0 <= x < 2 && x < |delivered| ==> delivered[x] == v.entries[x])
    && (forall x :: 2 <= x < |delivered| ==> delivered[x].name in v.ids)
  }

  lemma ViewName(v: RootView, x: nat)
    requires ViewValid(v) && 2 <= x < |v.entries|
    ensures v.entries[x].name in v.ids && x - 2 < |InOrder(v.ids)| && v.entries[x].name == InOrder(v.ids)[x - 2]
  {
    InOrderDistinct(v.ids, x - 2, x - 2);
    assert v.entries[x - 2 + 2].name == InOrder(v.ids)[x - 2];
  }

  lemma KnownLater(delivered: seq<DirectoryEntry>, v: RootView, w: RootView)
    requires ViewValid(v) && ViewValid(w) && ViewGrows(v, w) && |delivered| <= |v.entries| && Known(delivered, v)
    ensures |delivered| <= |w.entries| && Known(delivered, w)
  {
    SubsetCount(v.ids, w.ids);
  }

  lemma KnownPage(delivered: seq<DirectoryEntry>, v: RootView, next: nat)
    requires ViewValid(v) && |delivered| <= next <= |v.entries| && Known(delivered, v)
    ensures Known(delivered + v.entries[|delivered|..next], v)
  {
    var more := delivered + v.entries[|delivered|..next];
    forall x | 2 <= x < |more| ensures more[x].name in v.ids {
      ViewName(v, x);
    }
  }

  /** One more call: what it delivers, and at which offset the next one starts. */
  lemma NextPage(ls: seq<seq<DirectoryEntry>>, rooms: seq<nat>, m: nat)
    requires 0 < m <= |ls| == |rooms| && OffsetAt(ls, rooms, m - 1) <= |ls[m - 1]|
    ensures var l, offset, next := ls[m - 1], OffsetAt(ls, rooms, m - 1), OffsetAt(ls, rooms, m);
            && offset <= next <= |l| && next == Min(offset + rooms[m - 1], |l|)
            && Delivered(ls, rooms, m) == Delivered(ls, rooms, m - 1) + l[offset..next]
  {
    var l, offset := ls[m - 1], OffsetAt(ls, rooms, m - 1);
    PageExtends(l, offset, rooms[m - 1]);
    var page := Page(l, offset, rooms[m - 1]);
    assert EntriesOf(page) == l[offset..offset + |page|];
  }

  /** The calls so far have delivered as many entries as their offset says, all known to the last of them. */
  lemma {:induction false} DeliveredIsKnown(views: seq<RootView>, rooms: seq<nat>, m: nat)
    requires ViewsGrow(views) && 0 < m <= |views| == |rooms|
    ensures |DeliveredBy(views, rooms, m)| == OffsetAt(EntriesIn(views), rooms, m) <= |views[m - 1].entries|
    ensures Known(DeliveredBy(views, rooms, m), views[m - 1])
  {
    var ls, v := EntriesIn(views), views[m - 1];
    assert ViewValid(v);
    if m > 1 {
      DeliveredIsKnown(views, rooms, m - 1);
      assert ViewValid(views[m - 2]) && GrowsAt(views, m - 2);
      KnownLater(DeliveredBy(views, rooms, m - 1), views[m - 2], v);
    }
    NextPage(ls, rooms, m);
    KnownPage(DeliveredBy(views, rooms, m - 1), v, OffsetAt(ls, rooms, m));
  }

  /** Every promise that appeared between calls `i` and `i + 1` sorts after the last promise delivered before. */
  ghost predicate NewOnesFollow(views: seq<RootView>, rooms: seq<nat>, i: nat)
    requires i + 1 < |views| == |rooms|
  {
    Follow(DeliveredBy(views, rooms, i + 1), views[i].ids, views[i + 1].ids)
  }

  ghost predicate Follow(delivered: seq<DirectoryEntry>, before: set<string>, after: set<string>) {
    |delivered| > 2 ==> forall pid :: pid in after && pid !in before ==> Below(delivered[|delivered| - 1].name, pid)
  }

  /** Promises that start a later listing started the earlier one too, and nothing new came before the last of them. */
  lemma StartsBothIff(v: RootView, w: RootView, delivered: seq<DirectoryEntry>)
    requires ViewValid(v) && ViewValid(w) && ViewGrows(v, w) && |delivered| <= |v.entries| && Known(delivered, v)
    ensures delivered <= w.entries <==> delivered <= v.entries && Follow(delivered, v.ids, w.ids)
  {
    SubsetCount(v.ids, w.ids);
    if |delivered| <= 2 {
      assert delivered == v.entries[..|delivered|] == w.entries[..|delivered|];
    } else {
      var k := |delivered| - 2;
      PrefixKeptIff(v.ids, w.ids, k);
      ViewName(v, k + 1);
      if delivered <= w.entries {
        StartsEarlier(v, w, delivered);
      }
      if delivered <= v.entries && SamePrefix(InOrder(v.ids), InOrder(w.ids), k) {
        EntriesAgree(v, w, k);
        assert delivered == v.entries[..k + 2];
      }
    }
  }

  lemma StartsEarlier(v: RootView, w: RootView, delivered: seq<DirectoryEntry>)
    requires ViewValid(v) && ViewValid(w) && ViewGrows(v, w) && 2 < |delivered| <= |v.entries| && Known(delivered, v)
    requires delivered <= w.entries
    ensures SamePrefix(InOrder(v.ids), InOrder(w.ids), |delivered| - 2) && delivered <= v.entries
  {
    var k := |delivered| - 2;
    forall i | 0 <= i < k ensures InOrder(w.ids)[i] in v.ids {
      ViewName(w, i + 2);
      assert delivered[i + 2] == w.entries[i + 2];
    }
    OldKeysFirst(v.ids, w.ids, k);
    EntriesAgree(v, w, k);
  }

  lemma EntriesAgree(v: RootView, w: RootView, k: nat)
    requires ViewValid(v) && ViewValid(w) && ViewGrows(v, w) && SamePrefix(InOrder(v.ids), InOrder(w.ids), k)
    ensures k + 2 <= |v.entries| && k + 2 <= |w.entries| && v.entries[..k + 2] == w.entries[..k + 2]
  {
    forall x | 0 <= x < k + 2 ensures v.entries[x] == w.entries[x] {
      if x >= 2 {
        ViewName(v, x);
        ViewName(w, x);
      }
    }
  }

  ghost predicate AllNewOnesFollow(views: seq<RootView>, rooms: seq<nat>, m: nat)
    requires m <= |views| == |rooms|
  {
    forall i {:trigger NewOnesFollow(views, rooms, i)} :: 0 <= i < m - 1 ==> NewOnesFollow(views, rooms, i)
  }

  /** A page continues a start of the listing it is cut from, and only such a start. */
  lemma PageKeepsStart(d: seq<DirectoryEntry>, l: seq<DirectoryEntry>, next: nat)
    requires |d| <= next <= |l|
    ensures d + l[|d|..next] <= l <==> d <= l
  {
    if d <= l {
      assert d + l[|d|..next] == l[..next];
    }
    if d + l[|d|..next] <= l {
      assert d == (d + l[|d|..next])[..|d|] == l[..|d|];
    }
  }

  lemma {:induction false} ViewPagingExactIff(views: seq<RootView>, rooms: seq<nat>, m: nat)
    requires ViewsGrow(views) && 0 < m <= |views| == |rooms|
    ensures DeliveredBy(views, rooms, m) <= views[m - 1].entries <==> AllNewOnesFollow(views, rooms, m)
  {
    var ls, v, d := EntriesIn(views), views[m - 1], DeliveredBy(views, rooms, m - 1);
    assert ViewValid(v);
    if m > 1 {
      ViewPagingExactIff(views, rooms, m - 1);
      DeliveredIsKnown(views, rooms, m - 1);
      assert ViewValid(views[m - 2]) && GrowsAt(views, m - 2);
      KnownLater(d, views[m - 2], v);
      StartsBothIff(views[m - 2], v, d);
      assert AllNewOnesFollow(views, rooms, m) <==> AllNewOnesFollow(views, rooms, m - 1) && NewOnesFollow(views, rooms, m - 2);
    }
    NextPage(ls, rooms, m);
    PageKeepsStart(d, v.entries, OffsetAt(ls, rooms, m));
  }

  // ---- and its runtimes ----------------------------------------------------

  ghost function ViewOf(s: State): RootView {
    RootView(ListingAt(s, FUSE_ROOT_INODE), s.promises.Keys)
  }

  ghost function ViewsOf(states: seq<State>): seq<RootView> {
    seq(|states|, i requires 0 <= i < |states| => ViewOf(states[i]))
  }

  lemma RootEntries(s: State)
    requires Valid(s)
    ensures ViewValid(ViewOf(s))
    ensures var ids := InOrder(s.promises.Keys);
            && (forall i :: 0 <= i < |ids| ==> NodeAt(s, ids[i], ""))
            && (forall i :: 0 <= i < |ids| ==>
                  ListingAt(s, FUSE_ROOT_INODE)[i + 2] == DirectoryEntry(ids[i], Node(s, ids[i], "").inode, Directory))
  {
    RootListing(s);
  }

  lemma RootEntryStable(a: State, b: State, pid: string)
    requires Evolves(a, b) && NodeAt(a, pid, "")
    ensures NodeAt(b, pid, "") && Node(b, pid, "").inode == Node(a, pid, "").inode
  {
    assert NodeKept(a.promises[pid].tree.nodes[""], b.promises[pid].tree.nodes[""]);
  }

  lemma RootEntry(s: State, x: nat)
    requires Valid(s) && 2 <= x < |ListingAt(s, FUSE_ROOT_INODE)|
    ensures var ids := InOrder(s.promises.Keys);
            && x - 2 < |ids| && NodeAt(s, ids[x - 2], "")
            && ListingAt(s, FUSE_ROOT_INODE)[x] == DirectoryEntry(ids[x - 2], Node(s, ids[x - 2], "").inode, Directory)
  {
    RootEntries(s);
    assert ListingAt(s, FUSE_ROOT_INODE)[x - 2 + 2] == ListingAt(s, FUSE_ROOT_INODE)[x];
  }

  lemma RootEntryAgrees(a: State, b: State, x: nat)
    requires Valid(a) && Later(a, b) && 2 <= x < |ListingAt(a, FUSE_ROOT_INODE)| && x < |ListingAt(b, FUSE_ROOT_INODE)|
    requires ListingAt(a, FUSE_ROOT_INODE)[x].name == ListingAt(b, FUSE_ROOT_INODE)[x].name
    ensures ListingAt(a, FUSE_ROOT_INODE)[x] == ListingAt(b, FUSE_ROOT_INODE)[x]
  {
    RootEntry(a, x);
    RootEntry(b, x);
    RootEntryStable(a, b, InOrder(a.promises.Keys)[x - 2]);
  }

  lemma RootViewGrows(a: State, b: State)
    requires Valid(a) && Later(a, b)
    ensures ViewGrows(ViewOf(a), ViewOf(b))
  {
    var v, w := ViewOf(a), ViewOf(b);
    forall x | 2 <= x < |v.entries| && x < |w.entries| && v.entries[x].name == w.entries[x].name ensures v.entries[x] == w.entries[x] {
      RootEntryAgrees(a, b, x);
    }
  }

  ghost predicate LaterAt(states: seq<State>, i: nat) {
    i + 1 < |states| ==> Later(states[i], states[i + 1])
  }

  /** The states in which the calls run: each is a later state of the one before. */
  ghost predicate Successive(states: seq<State>) {
    && (|states| > 0 ==> Valid(states[0]))
    && forall i {:trigger LaterAt(states, i)} :: 0 <= i ==> LaterAt(states, i)
  }

  lemma SuccessiveState(states: seq<State>, i: nat)
    requires Successive(states) && i < |states|
    ensures Valid(states[i]) && (i + 1 < |states| ==> Later(states[i], states[i + 1]))
  {
    assert LaterAt(states, i) && (i > 0 ==> LaterAt(states, i - 1));
  }

  lemma RootViewValid(s: State)
    requires Valid(s)
    ensures ViewValid(ViewOf(s))
  {
    RootEntries(s);
  }

  lemma SuccessiveGrows(states: seq<State>, i: nat)
    requires Successive(states)
    ensures GrowsAt(ViewsOf(states), i)
  {
    if i + 1 < |states| {
      var v, w := ViewsOf(states)[i], ViewsOf(states)[i + 1];
      assert ViewGrows(v, w) by {
        SuccessiveState(states, i);
        RootViewGrows(states[i], states[i + 1]);
      }
    }
  }

  lemma SuccessiveViews(states: seq<State>)
    requires Successive(states)
    ensures ViewsGrow(ViewsOf(states))
  {
    var views := ViewsOf(states);
    forall i {:trigger ViewValid(views[i])} | 0 <= i < |views| ensures ViewValid(views[i]) {
      assert ViewValid(ViewOf(states[i])) by {
        SuccessiveState(states, i);
        RootViewValid(states[i]);
      }
    }
    forall i {:trigger GrowsAt(views, i)} | 0 <= i ensures GrowsAt(views, i) {
      SuccessiveGrows(states, i);
    }
  }

  /**
    Calls on the mount root, call `i` in `states[i]` with room for `rooms[i]` entries, deliver a prefix
    of the listing that the last of them sees, with nothing skipped or repeated, if and only if every
    promise committed between two calls sorts after the last promise delivered before it.
   */
  lemma RootPagingExactIff(states: seq<State>, rooms: seq<nat>)
    requires Successive(states) && 0 < |states| == |rooms|
    ensures var views := ViewsOf(states);
            DeliveredBy(views, rooms, |states|) <= views[|states| - 1].entries <==> AllNewOnesFollow(views, rooms, |states|)
  {
    SuccessiveViews(states);
    ViewPagingExactIff(ViewsOf(states), rooms, |states|);
  }

  lemma TenBelowTwo()
    ensures !Below("promise-2", "promise-10")
  {
    assert !Below("2", "10");
    BelowSkip("promise-", "2", "10");
    assert "promise-" + "2" == "promise-2" && "promise-" + "10" == "promise-10";
  }

  lemma {:induction false} BelowSkip(prefix: string, a: string, b: string)
    ensures Below(prefix + a, prefix + b) <==> Below(a, b)
  {
    if prefix == "" {
      assert prefix + a == a && prefix + b == b;
    } else {
      BelowSkip(prefix[1..], a, b);
      assert (prefix + a)[1..] == prefix[1..] + a && (prefix + b)[1..] == prefix[1..] + b;
    }
  }

  /** A newcomer that sorts before the last promise of the first page breaks the listing, whatever the second call has room for. */
  lemma EarlierNewcomer(views: seq<RootView>, rooms: seq<nat>, k: nat, pid: string)
    requires |views| == |rooms| == 2 && ViewsGrow(views) && ViewValid(views[0]) && 0 < k <= |InOrder(views[0].ids)| && rooms[0] == k + 2
    requires pid !in views[0].ids && pid in views[1].ids && !Below(InOrder(views[0].ids)[k - 1], pid)
    ensures !(DeliveredBy(views, rooms, 2) <= views[1].entries)
  {
    FirstPage(views, rooms, k);
    assert !Follow(DeliveredBy(views, rooms, 1), views[0].ids, views[1].ids);
    assert !NewOnesFollow(views, rooms, 0);
    ViewPagingExactIff(views, rooms, 2);
  }

  lemma PairShifts(v: RootView, w: RootView, k: nat, room: nat, pid: string)
    requires ViewValid(v) && ViewValid(w) && ViewGrows(v, w) && 0 < k <= |InOrder(v.ids)|
    requires pid !in v.ids && pid in w.ids && !Below(InOrder(v.ids)[k - 1], pid)
    ensures !(DeliveredBy([v, w], [k + 2, room], 2) <= w.entries)
  {
    assert ViewsGrow([v, w]);
    EarlierNewcomer([v, w], [k + 2, room], k, pid);
  }

  /** The same for two calls in two runtimes. */
  lemma NewcomerShifts(a: State, b: State, k: nat, room: nat, pid: string)
    requires Valid(a) && Later(a, b) && 0 < k <= |InOrder(a.promises.Keys)|
    requires pid !in a.promises && pid in b.promises && !Below(InOrder(a.promises.Keys)[k - 1], pid)
    ensures !(DeliveredBy([ViewOf(a), ViewOf(b)], [k + 2, room], 2) <= ViewOf(b).entries)
  {
    RootEntries(a);
    RootEntries(b);
    RootViewGrows(a, b);
    PairShifts(ViewOf(a), ViewOf(b), k, room, pid);
  }

  lemma FirstPage(views: seq<RootView>, rooms: seq<nat>, k: nat)
    requires 0 < |views| == |rooms| && ViewValid(views[0]) && 0 < k <= |InOrder(views[0].ids)| && rooms[0] == k + 2
    ensures var delivered := DeliveredBy(views, rooms, 1);
            |delivered| == k + 2 && delivered[k + 1].name == InOrder(views[0].ids)[k - 1]
  {
    NextPage(EntriesIn(views), rooms, 1);
    ViewName(views[0], k + 1);
  }
}
