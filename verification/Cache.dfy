/**
  The read-through cache: byte ranges inside chunks, chunks inside files, files inside
  the cache.  Every level is specified by a pointwise partial map from offsets to bytes.
 */
module Cache {
  import opened Base

  /** A run of bytes stored at consecutive offsets. */
  datatype CachedRange = CachedRange(offset: U64, bytes: seq<Byte>) {
    function End(): Option<U64> {
      CheckedAdd(offset, |bytes|)
    }
  }

  type Ranges = seq<CachedRange>

  ghost predicate Covers(r: CachedRange, o: int) {
    r.offset <= o < r.offset + |r.bytes|
  }

  /** At least one missing byte lies between the two ranges. */
  ghost predicate Separate(a: CachedRange, b: CachedRange) {
    a.offset + |a.bytes| < b.offset || b.offset + |b.bytes| < a.offset
  }

  ghost predicate Sound(r: CachedRange) {
    |r.bytes| > 0 && r.End().Some?
  }

  ghost predicate Ordered(rs: Ranges, i: int, j: int)
    requires 0 <= i < j < |rs|
  {
    rs[i].offset + |rs[i].bytes| < rs[j].offset
  }

  /** The unstated invariant of a chunk: nonempty, sorted, disjoint, separated ranges. */
  ghost predicate RangesValid(rs: Ranges) {
    && (forall r :: r in rs ==> Sound(r))
    && (forall i, j :: 0 <= i < j < |rs| ==> Ordered(rs, i, j))
  }

  lemma Apart(rs: Ranges, a: CachedRange, b: CachedRange)
    requires RangesValid(rs) && a in rs && b in rs
    ensures a == b || Separate(a, b)
  {
    var i :| 0 <= i < |rs| && rs[i] == a;
    var j :| 0 <= j < |rs| && rs[j] == b;
    if i < j { assert Ordered(rs, i, j); }
    if j < i { assert Ordered(rs, j, i); }
  }

  /** The partial map that a list of ranges stands for. */
  ghost function Lookup(rs: Ranges, o: int): Option<Byte> {
    if exists r :: r in rs && Covers(r, o) then
      var r :| r in rs && Covers(r, o);
      Some(r.bytes[o - r.offset])
    else
      None
  }

  lemma LookupIs(rs: Ranges, r: CachedRange, o: int)
    requires RangesValid(rs) && r in rs && Covers(r, o)
    ensures Lookup(rs, o) == Some(r.bytes[o - r.offset])
  {
    var q :| q in rs && Covers(q, o) && Lookup(rs, o) == Some(q.bytes[o - q.offset]);
    Apart(rs, q, r);
  }

  lemma LookupSome(rs: Ranges, o: int) returns (r: CachedRange)
    requires Lookup(rs, o).Some?
    ensures r in rs && Covers(r, o)
  {
    r :| r in rs && Covers(r, o);
  }

  // ---- sorting -------------------------------------------------------------

  function InsertSorted(r: CachedRange, s: Ranges): Ranges {
    if s == [] then [r]
    else if r.offset <= s[0].offset then [r] + s
    else [s[0]] + InsertSorted(r, s[1..])
  }

  /** `sort_by_key(|range| range.offset)`, as a stable insertion sort. */
  function SortByOffset(s: Ranges): Ranges {
    if s == [] then [] else InsertSorted(s[0], SortByOffset(s[1..]))
  }

  lemma ConsValid(r: CachedRange, s: Ranges)
    requires RangesValid(s) && Sound(r)
    requires forall q :: q in s ==> r.offset + |r.bytes| < q.offset
    ensures RangesValid([r] + s)
  {
    var t := [r] + s;
    forall i, j | 0 <= i < j < |t| ensures Ordered(t, i, j) {
      assert t[j] == s[j - 1] && t[j] in s;
      if i > 0 { assert Ordered(s, i - 1, j - 1); }
    }
  }

  lemma TailValid(s: Ranges)
    requires RangesValid(s) && s != []
    ensures RangesValid(s[1..])
    ensures forall q :: q in s[1..] ==> s[0].offset + |s[0].bytes| < q.offset
    ensures forall q :: q in s <==> q == s[0] || q in s[1..]
  {
    assert s == [s[0]] + s[1..];
    var t := s[1..];
    forall i, j | 0 <= i < j < |t| ensures Ordered(t, i, j) {
      assert Ordered(s, i + 1, j + 1);
    }
    forall q | q in t ensures s[0].offset + |s[0].bytes| < q.offset {
      var j :| 0 <= j < |t| && t[j] == q;
      assert Ordered(s, 0, j + 1);
    }
  }

  lemma SnocValid(s: Ranges, r: CachedRange)
    requires RangesValid(s) && Sound(r)
    requires forall q :: q in s ==> q.offset + |q.bytes| < r.offset
    ensures RangesValid(s + [r])
  {
    var t := s + [r];
    forall i, j | 0 <= i < j < |t| ensures Ordered(t, i, j) {
      assert t[i] == s[i] && t[i] in s;
      if j < |s| { assert Ordered(s, i, j); }
    }
  }

  lemma {:induction false} InsertSortedValid(r: CachedRange, s: Ranges)
    requires RangesValid(s) && Sound(r)
    requires forall q :: q in s ==> Separate(r, q)
    ensures RangesValid(InsertSorted(r, s))
    ensures forall q :: q in InsertSorted(r, s) <==> q == r || q in s
  {
    if s == [] {
    } else {
      TailValid(s);
      if r.offset <= s[0].offset {
        assert Separate(r, s[0]);
        ConsValid(r, s);
      } else {
        assert Separate(r, s[0]);
        InsertSortedValid(r, s[1..]);
        ConsValid(s[0], InsertSorted(r, s[1..]));
      }
    }
  }

  lemma {:induction false} SortByOffsetValid(s: Ranges)
    requires forall r :: r in s ==> Sound(r)
    requires forall i, j :: 0 <= i < j < |s| ==> Separate(s[i], s[j])
    ensures RangesValid(SortByOffset(s))
    ensures forall r :: r in SortByOffset(s) <==> r in s
  {
    if s != [] {
      assert s == [s[0]] + s[1..];
      SortByOffsetValid(s[1..]);
      forall q | q in SortByOffset(s[1..]) ensures Separate(s[0], q) {
        var j :| 0 <= j < |s[1..]| && s[1..][j] == q;
        assert Separate(s[0], s[j + 1]);
      }
      InsertSortedValid(s[0], SortByOffset(s[1..]));
    }
  }

  // ---- chunks --------------------------------------------------------------

  /** `copy_from_slice` into `buffer` at `start`. */
  function Spliced(buffer: seq<Byte>, start: nat, bytes: seq<Byte>): (r: seq<Byte>)
    requires start + |bytes| <= |buffer|
    ensures |r| == |buffer|
    ensures forall i :: 0 <= i < |r| ==>
      r[i] == if start <= i < start + |bytes| then bytes[i - start] else buffer[i]
  {
    buffer[..start] + bytes + buffer[start + |bytes|..]
  }

  /** The byte that inserting `bytes` at `offset` puts at `o`, if any. */
  ghost function Written(offset: U64, bytes: seq<Byte>, o: int): Option<Byte> {
    if offset <= o < offset + |bytes| then Some(bytes[o - offset]) else None
  }

  ghost function Override(new_: Option<Byte>, old_: Option<Byte>): Option<Byte> {
    if new_.Some? then new_ else old_
  }

  predicate Touch(range: CachedRange, merged: CachedRange) {
    !(range.offset + |range.bytes| < merged.offset || range.offset > merged.offset + |merged.bytes|)
  }

  /** One step of the merge: a zeroed buffer, the old range, then the merged bytes on top. */
  function Absorb(merged: CachedRange, range: CachedRange): (r: CachedRange)
    requires Touch(range, merged)
  {
    var nextOffset := Min(merged.offset, range.offset);
    var mergedEnd, rangeEnd := merged.offset + |merged.bytes|, range.offset + |range.bytes|;
    var nextEnd := if mergedEnd >= rangeEnd then mergedEnd else rangeEnd;
    var zeros: seq<Byte> := seq(nextEnd - nextOffset, _ => 0);
    var withRange := Spliced(zeros, range.offset - nextOffset, range.bytes);
    CachedRange(nextOffset, Spliced(withRange, merged.offset - nextOffset, merged.bytes))
  }

  /** No filler survives: every byte of the result is a byte of one of the two ranges. */
  lemma AbsorbAt(merged: CachedRange, range: CachedRange, o: int)
    requires Touch(range, merged)
    ensures Covers(Absorb(merged, range), o) <==> Covers(merged, o) || Covers(range, o)
    ensures Covers(merged, o) ==>
      Absorb(merged, range).bytes[o - Absorb(merged, range).offset] == merged.bytes[o - merged.offset]
    ensures !Covers(merged, o) && Covers(range, o) ==>
      Absorb(merged, range).bytes[o - Absorb(merged, range).offset] == range.bytes[o - range.offset]
  {
  }

  /** What holds when the first `i` ranges have been drained. */
  ghost predicate Merging(rs: Ranges, i: nat, retained: Ranges, merged: CachedRange, offset: U64, bytes: seq<Byte>)
    requires i <= |rs|
  {
    && Sound(merged)
    && merged.offset <= offset && offset + |bytes| <= merged.offset + |merged.bytes|
    && RangesValid(retained)
    && (forall r :: r in retained ==> r in rs[..i] && Separate(r, merged))
    && (forall r :: r in rs[..i] ==>
         r in retained || (merged.offset <= r.offset && r.offset + |r.bytes| <= merged.offset + |merged.bytes|))
    && (forall o :: Covers(merged, o) ==>
         Some(merged.bytes[o - merged.offset]) == Override(Written(offset, bytes, o), Lookup(rs, o)))
  }

  lemma Retain(rs: Ranges, i: nat, retained: Ranges, merged: CachedRange, offset: U64, bytes: seq<Byte>)
    requires RangesValid(rs) && i < |rs| && Merging(rs, i, retained, merged, offset, bytes)
    requires !Touch(rs[i], merged)
    ensures Merging(rs, i + 1, retained + [rs[i]], merged, offset, bytes)
  {
    assert rs[..i + 1] == rs[..i] + [rs[i]];
    forall q | q in retained ensures q.offset + |q.bytes| < rs[i].offset {
      DrainedBefore(rs, i, q);
    }
    assert Sound(rs[i]);
    SnocValid(retained, rs[i]);
  }

  lemma DrainedBefore(rs: Ranges, i: nat, q: CachedRange)
    requires RangesValid(rs) && i < |rs| && q in rs[..i]
    ensures q.offset + |q.bytes| < rs[i].offset
  {
    var j :| 0 <= j < i && rs[j] == q;
    assert Ordered(rs, j, i);
  }

  lemma AbsorbTouching(rs: Ranges, i: nat, retained: Ranges, merged: CachedRange, offset: U64, bytes: seq<Byte>)
    requires RangesValid(rs) && i < |rs| && Merging(rs, i, retained, merged, offset, bytes)
    requires Touch(rs[i], merged)
    ensures Merging(rs, i + 1, retained, Absorb(merged, rs[i]), offset, bytes)
  {
    var range, next := rs[i], Absorb(merged, rs[i]);
    assert rs[..i + 1] == rs[..i] + [range];
    assert Sound(range);
    forall o | Covers(next, o)
      ensures Some(next.bytes[o - next.offset]) == Override(Written(offset, bytes, o), Lookup(rs, o))
    {
      AbsorbAt(merged, range, o);
      if !Covers(merged, o) {
        LookupIs(rs, range, o);
      }
    }
    forall r | r in retained ensures Separate(r, next) {
      DrainedBefore(rs, i, r);
    }
  }

  class CachedChunk {
    var ranges: Ranges

    constructor (ranges: Ranges)
      ensures this.ranges == ranges
    {
      this.ranges := ranges;
    }

    /** A range is returned whole from one stored range, or not at all. */
    method Read(offset: U64, length: U64) returns (r: Option<seq<Byte>>)
      requires RangesValid(ranges)
      ensures r.Some? ==> |r.value| == length
      ensures r.Some? ==>
        forall o :: offset <= o < offset + length ==> Lookup(ranges, o) == Some(r.value[o - offset])
      ensures length > 0 ==>
        (r.Some? <==> forall o :: offset <= o < offset + length ==> Lookup(ranges, o).Some?)
    {
      if offset + length > MAX_U64 {
        NothingAtTop(ranges);
        assert length > 0 ==> Lookup(ranges, offset + length - 1).None?;
        return None;
      }
      var end := offset + length;
      for i := 0 to |ranges|
        invariant forall j :: 0 <= j < i ==>
          !(ranges[j].offset <= offset && end <= ranges[j].offset + |ranges[j].bytes|)
      {
        var range := ranges[i];
        assert Sound(range);
        if range.End().None? {
          return None;
        }
        if range.offset <= offset && range.End().value >= end {
          var bytes := range.bytes[offset - range.offset..end - range.offset];
          forall o | offset <= o < end ensures Lookup(ranges, o) == Some(bytes[o - offset]) {
            LookupIs(ranges, range, o);
          }
          return Some(bytes);
        }
      }
      if length > 0 && forall o :: offset <= o < end ==> Lookup(ranges, o).Some? {
        OneRangeHoldsAll(ranges, offset, length);
      }
      return None;
    }

    /** Inserting refines overriding the partial map; an overflowing range is ignored. */
    method Insert(offset: U64, bytes: seq<Byte>)
      requires RangesValid(ranges)
      modifies this
      ensures RangesValid(ranges)
      ensures offset + |bytes| > MAX_U64 ==> ranges == old(ranges)
      ensures offset + |bytes| <= MAX_U64 ==>
        forall o :: Lookup(ranges, o) == Override(Written(offset, bytes, o), Lookup(old(ranges), o))
    {
      if bytes == [] {
        return;
      }
      if CheckedAdd(offset, |bytes|).None? {
        return;
      }
      var drained := ranges;
      var merged := CachedRange(offset, bytes);
      var retained: Ranges := [];
      for i := 0 to |drained|
        invariant Merging(drained, i, retained, merged, offset, bytes)
      {
        var range := drained[i];
        assert Sound(range);
        if range.End().None? {
          assert false;
        } else if !Touch(range, merged) {
          Retain(drained, i, retained, merged, offset, bytes);
          retained := retained + [range];
        } else {
          AbsorbTouching(drained, i, retained, merged, offset, bytes);
          merged := Absorb(merged, range);
        }
      }
      assert drained[..|drained|] == drained;
      FinishInsert(drained, retained, merged, offset, bytes);
      ranges := SortByOffset(retained + [merged]);
    }
  }

  /** No range reaches the last 64-bit offset, because its end would not fit. */
  lemma NothingAtTop(rs: Ranges)
    requires RangesValid(rs)
    ensures forall o :: o >= MAX_U64 ==> Lookup(rs, o).None?
  {
  }

  /** Because ranges are separated, a fully present interval lies inside one range. */
  lemma OneRangeHoldsAll(rs: Ranges, offset: U64, length: U64)
    requires RangesValid(rs) && length > 0
    requires forall o :: offset <= o < offset + length ==> Lookup(rs, o).Some?
    ensures exists i :: 0 <= i < |rs| && rs[i].offset <= offset && offset + length <= rs[i].offset + |rs[i].bytes|
  {
    var r := LookupSome(rs, offset);
    var i :| 0 <= i < |rs| && rs[i] == r;
    var end := r.offset + |r.bytes|;
    forall q | q in rs ensures !Covers(q, end) {
      Apart(rs, q, r);
    }
    assert end < offset + length ==> Lookup(rs, end).Some?;
  }

  lemma FinishInsert(rs: Ranges, retained: Ranges, merged: CachedRange, offset: U64, bytes: seq<Byte>)
    requires RangesValid(rs) && RangesValid(retained) && Sound(merged)
    requires merged.offset <= offset && offset + |bytes| <= merged.offset + |merged.bytes|
    requires forall r :: r in retained ==> r in rs && Separate(r, merged)
    requires forall r :: r in rs ==>
      r in retained || (merged.offset <= r.offset && r.offset + |r.bytes| <= merged.offset + |merged.bytes|)
    requires forall o :: Covers(merged, o) ==>
      Some(merged.bytes[o - merged.offset]) == Override(Written(offset, bytes, o), Lookup(rs, o))
    ensures RangesValid(SortByOffset(retained + [merged]))
    ensures forall o :: Lookup(SortByOffset(retained + [merged]), o)
                     == Override(Written(offset, bytes, o), Lookup(rs, o))
  {
    var s := retained + [merged];
    forall i, j | 0 <= i < j < |s| ensures Separate(s[i], s[j]) {
      assert s[i] in retained;
      if j < |retained| { assert Ordered(retained, i, j); }
    }
    SortByOffsetValid(s);
    var out := SortByOffset(s);
    forall o ensures Lookup(out, o) == Override(Written(offset, bytes, o), Lookup(rs, o)) {
      if Covers(merged, o) {
        assert merged in s;
        LookupIs(out, merged, o);
      } else if r :| r in rs && Covers(r, o) {
        LookupIs(rs, r, o);
        LookupIs(out, r, o);
      } else {
        assert forall r :: r in out ==> !Covers(r, o);
      }
    }
  }

  /** A chunk is determined by its partial map: the representation is canonical. */
  lemma {:induction false} Canonical(a: Ranges, b: Ranges)
    requires RangesValid(a) && RangesValid(b)
    requires forall o :: Lookup(a, o) == Lookup(b, o)
    ensures a == b
    decreases |a| + |b|
  {
    NonemptyIff(a, b);
    if a != [] {
      SameFirstRange(a, b);
      SameTails(a, b);
      Canonical(a[1..], b[1..]);
      assert a == [a[0]] + a[1..] && b == [b[0]] + b[1..];
    }
  }

  lemma NonemptyIff(a: Ranges, b: Ranges)
    requires RangesValid(a) && RangesValid(b)
    requires forall o :: Lookup(a, o) == Lookup(b, o)
    ensures a == [] <==> b == []
  {
    if a != [] { LookupIs(a, a[0], a[0].offset); }
    if b != [] { LookupIs(b, b[0], b[0].offset); }
  }

  lemma SameTails(a: Ranges, b: Ranges)
    requires RangesValid(a) && RangesValid(b) && a != [] && b != [] && a[0] == b[0]
    requires forall o :: Lookup(a, o) == Lookup(b, o)
    ensures RangesValid(a[1..]) && RangesValid(b[1..])
    ensures forall o :: Lookup(a[1..], o) == Lookup(b[1..], o)
  {
    TailValid(a);
    TailValid(b);
    forall o ensures Lookup(a[1..], o) == Lookup(b[1..], o) {
      LookupTail(a, o);
      LookupTail(b, o);
    }
  }

  lemma SameFirstRange(a: Ranges, b: Ranges)
    requires RangesValid(a) && RangesValid(b) && a != [] && b != []
    requires forall o :: Lookup(a, o) == Lookup(b, o)
    ensures a[0] == b[0]
  {
    FirstRangeWithin(a, b);
    FirstRangeWithin(b, a);
    forall k | 0 <= k < |a[0].bytes| ensures a[0].bytes[k] == b[0].bytes[k] {
      SameByte(a, b, k);
    }
    assert a[0].bytes == b[0].bytes;
  }

  lemma SameByte(a: Ranges, b: Ranges, k: nat)
    requires RangesValid(a) && RangesValid(b) && a != [] && b != []
    requires a[0].offset == b[0].offset && k < |a[0].bytes| == |b[0].bytes|
    requires Lookup(a, a[0].offset + k) == Lookup(b, a[0].offset + k)
    ensures a[0].bytes[k] == b[0].bytes[k]
  {
    LookupIs(a, a[0], a[0].offset + k);
    LookupIs(b, b[0], a[0].offset + k);
  }

  lemma LookupTail(rs: Ranges, o: int)
    requires RangesValid(rs) && rs != []
    ensures RangesValid(rs[1..])
    ensures Lookup(rs[1..], o) == if Covers(rs[0], o) then None else Lookup(rs, o)
  {
    TailValid(rs);
    if r :| r in rs[1..] && Covers(r, o) {
      LookupIs(rs[1..], r, o);
      LookupIs(rs, r, o);
    }
  }

  lemma FirstIsLeast(rs: Ranges, r: CachedRange)
    requires RangesValid(rs) && r in rs
    ensures rs[0].offset <= r.offset
  {
    var i :| 0 <= i < |rs| && rs[i] == r;
    if i > 0 { assert Ordered(rs, 0, i); }
  }

  lemma FirstRangeWithin(a: Ranges, b: Ranges)
    requires RangesValid(a) && RangesValid(b) && a != [] && b != []
    requires forall o :: Lookup(a, o) == Lookup(b, o)
    ensures b[0].offset <= a[0].offset
    ensures b[0].offset == a[0].offset ==> |a[0].bytes| <= |b[0].bytes|
  {
    var r := a[0];
    assert Sound(r) && Sound(b[0]);
    LookupIs(a, r, r.offset);
    var q := LookupSome(b, r.offset);
    FirstIsLeast(b, q);
    forall o | r.offset <= o < r.offset + |r.bytes| ensures Lookup(b, o).Some? {
      LookupIs(a, r, o);
    }
    OneRangeHoldsAll(b, r.offset, |r.bytes|);
    var i :| 0 <= i < |b| && b[i].offset <= r.offset && r.offset + |r.bytes| <= b[i].offset + |b[i].bytes|;
    Apart(b, b[i], b[0]);
  }

  // ---- files ---------------------------------------------------------------

  type Chunks = map<U64, Ranges>

  function ChunkBase(o: U64, c: U32): (r: U64)
    requires c > 0
    ensures r <= o < r + c
  {
    BaseBounds(o, c);
    o / c * c
  }

  /** The end of the chunk that holds `o`, clipped to the 64-bit range. */
  function ChunkEnd(o: U64, c: U32): (r: U64)
    requires c > 0
    ensures o < MAX_U64 ==> o < r
  {
    var base := ChunkBase(o, c);
    if CheckedAdd(base, c).Some? then base + c else MAX_U64
  }

  lemma BaseBounds(o: nat, c: nat)
    requires c > 0
    ensures 0 <= o / c * c <= o < o / c * c + c
  {
    assert o == o / c * c + o % c;
  }

  /** All offsets of one chunk have the same base. */
  lemma SameBase(o: U64, x: U64, c: U32)
    requires c > 0
    requires ChunkBase(o, c) <= x < ChunkBase(o, c) + c
    ensures ChunkBase(x, c) == ChunkBase(o, c)
  {
    var p, q := o / c, x / c;
    BaseBounds(x, c);
    assert q * c < p * c + c == (p + 1) * c;
    assert p * c < q * c + c == (q + 1) * c;
    assert q < p ==> (q + 1) * c <= p * c;
    assert p < q ==> (p + 1) * c <= q * c;
  }

  ghost predicate ChunksValid(chunks: Chunks) {
    forall k :: k in chunks ==> RangesValid(chunks[k])
  }

  ghost function ChunkLookup(chunks: Chunks, k: int, o: int): Option<Byte> {
    if k in chunks then Lookup(chunks[k], o) else None
  }

  /** The partial map seen by a reader that uses chunk size `c`. */
  ghost function View(chunks: Chunks, c: U32, o: int): Option<Byte>
    requires c > 0
  {
    if 0 <= o <= MAX_U64 then ChunkLookup(chunks, ChunkBase(o, c), o) else None
  }

  /** The byte that a file-level insert files at offset `o` under the chunk key `k`. */
  ghost function Filed(offset: U64, bytes: seq<Byte>, c: U32, k: int, o: int): Option<Byte>
    requires c > 0
  {
    if offset <= o < offset + |bytes| && o < MAX_U64 && k == ChunkBase(o, c) then Some(bytes[o - offset]) else None
  }

  /** `after` is `before` overridden by `bytes` at `offset`; only the very last offset is dropped. */
  ghost predicate Inserted(before: Chunks, after: Chunks, offset: U64, bytes: seq<Byte>, c: U32)
    requires c > 0
  {
    && ChunksValid(after)
    && forall k, o :: ChunkLookup(after, k, o) == Override(Filed(offset, bytes, c, k, o), ChunkLookup(before, k, o))
  }

  /** A nonempty read hits exactly when every byte is in the view, and returns those bytes. */
  ghost predicate ReadAnswers(chunks: Chunks, c: U32, offset: U64, length: nat, r: Option<seq<Byte>>)
    requires c > 0
  {
    && (r.Some? <==> offset + length <= MAX_U64 &&
                     forall o :: offset <= o < offset + length ==> View(chunks, c, o).Some?)
    && (r.Some? ==> |r.value| == length)
    && (r.Some? ==> forall o :: offset <= o < offset + length ==> View(chunks, c, o) == Some(r.value[o - offset]))
  }

  class CachedFile {
    var chunks: Chunks

    constructor (chunks: Chunks)
      ensures this.chunks == chunks
    {
      this.chunks := chunks;
    }

    method Read(offset: U64, length: U64, chunkSize: U32) returns (r: Option<seq<Byte>>)
      requires chunkSize > 0 && ChunksValid(chunks)
      ensures ReadAnswers(chunks, chunkSize, offset, length, r)
    {
      if CheckedAdd(offset, length).None? {
        return None;
      }
      var end := offset + length;
      var bytes: seq<Byte> := [];
      var cursor := offset;
      while cursor < end
        invariant offset <= cursor <= end
        invariant |bytes| == cursor - offset
        invariant forall o :: offset <= o < cursor ==> View(chunks, chunkSize, o) == Some(bytes[o - offset])
      {
        var base, readEnd := ChunkBase(cursor, chunkSize), Min(end, ChunkEnd(cursor, chunkSize));
        forall o | cursor <= o < readEnd
          ensures View(chunks, chunkSize, o) == ChunkLookup(chunks, base, o)
        {
          SameBase(cursor, o, chunkSize);
        }
        if base !in chunks {
          assert View(chunks, chunkSize, cursor).None?;
          return None;
        }
        var chunk := new CachedChunk(chunks[base]);
        var piece := chunk.Read(cursor, readEnd - cursor);
        if piece.None? {
          ghost var o :| cursor <= o < readEnd && Lookup(chunks[base], o).None?;
          assert View(chunks, chunkSize, o).None?;
          return None;
        }
        bytes := bytes + piece.value;
        cursor := readEnd;
      }
      return Some(bytes);
    }

    method Insert(offset: U64, bytes: seq<Byte>, chunkSize: U32)
      requires chunkSize > 0 && ChunksValid(chunks)
      modifies this
      ensures Inserted(old(chunks), chunks, offset, bytes, chunkSize)
    {
      var cursor, consumed: nat := offset, 0;
      while consumed < |bytes|
        invariant consumed <= |bytes| && cursor == offset + consumed <= MAX_U64
        invariant Inserted(old(chunks), chunks, offset, bytes[..consumed], chunkSize)
      {
        var base := ChunkBase(cursor, chunkSize);
        var take := Min(|bytes| - consumed, ChunkEnd(cursor, chunkSize) - cursor);
        if take <= 0 {
          break;
        }
        var piece := bytes[consumed..consumed + take];
        var chunk := new CachedChunk(if base in chunks then chunks[base] else []);
        chunk.Insert(cursor, piece);
        ExtendInserted(old(chunks), chunks, chunk.ranges, offset, bytes, chunkSize, consumed, take);
        chunks := chunks[base := chunk.ranges];
        consumed := consumed + take;
        cursor := if cursor + take <= MAX_U64 then cursor + take else MAX_U64;
      }
      TopOffsetDropped(old(chunks), chunks, offset, bytes, chunkSize, consumed);
    }
  }

  lemma ExtendInserted(before: Chunks, chunks: Chunks, ranges: Ranges, offset: U64, bytes: seq<Byte>, c: U32,
                       consumed: nat, take: nat)
    requires c > 0 && consumed + take <= |bytes| && offset + consumed < MAX_U64
    requires offset + consumed + take <= ChunkEnd(offset + consumed, c)
    requires Inserted(before, chunks, offset, bytes[..consumed], c)
    requires RangesValid(ranges)
    requires forall o :: Lookup(ranges, o)
                      == Override(Written(offset + consumed, bytes[consumed..consumed + take], o),
                                  ChunkLookup(chunks, ChunkBase(offset + consumed, c), o))
    ensures Inserted(before, chunks[ChunkBase(offset + consumed, c) := ranges], offset, bytes[..consumed + take], c)
  {
    var cursor: U64 := offset + consumed;
    var base := ChunkBase(cursor, c);
    var after := chunks[base := ranges];
    forall k, o
      ensures ChunkLookup(after, k, o)
           == Override(Filed(offset, bytes[..consumed + take], c, k, o), ChunkLookup(before, k, o))
    {
      if cursor <= o < cursor + take {
        SameBase(cursor, o, c);
      }
      assert ChunkLookup(chunks, k, o) == Override(Filed(offset, bytes[..consumed], c, k, o), ChunkLookup(before, k, o));
    }
  }

  lemma TopOffsetDropped(before: Chunks, after: Chunks, offset: U64, bytes: seq<Byte>, c: U32, consumed: nat)
    requires c > 0 && consumed <= |bytes|
    requires consumed == |bytes| || offset + consumed == MAX_U64
    requires Inserted(before, after, offset, bytes[..consumed], c)
    ensures Inserted(before, after, offset, bytes, c)
  {
    forall k, o ensures Filed(offset, bytes, c, k, o) == Filed(offset, bytes[..consumed], c, k, o) {
    }
  }

  // ---- histories of one file -----------------------------------------------

  /** One insert and the chunk size in force at the time. */
  datatype Write = Write(offset: U64, bytes: seq<Byte>, chunkSize: U32)

  ghost predicate Sized(log: seq<Write>) {
    forall w :: w in log ==> w.chunkSize > 0
  }

  predicate WriteCovers(w: Write, o: U64) {
    w.offset <= o < w.offset + |w.bytes| && o < MAX_U64
  }

  /** The most recent write that reached an offset from the chunk in which a reader with chunk size `c` looks for it. */
  ghost function Visible(log: seq<Write>, c: U32, o: U64): Option<Byte>
    requires c > 0 && Sized(log)
  {
    if log == [] then None
    else
      var w := log[|log| - 1];
      if WriteCovers(w, o) && ChunkBase(o, w.chunkSize) == ChunkBase(o, c) then Some(w.bytes[o - w.offset])
      else Visible(log[..|log| - 1], c, o)
  }

  /** The most recent write to an offset, whatever the chunk size. */
  ghost function Latest(log: seq<Write>, o: U64): Option<Byte> {
    if log == [] then None
    else
      var w := log[|log| - 1];
      if WriteCovers(w, o) then Some(w.bytes[o - w.offset]) else Latest(log[..|log| - 1], o)
  }

  /** `states` is the run of a fresh cached file through the writes of `log`, each with its own chunk size. */
  ghost predicate FileRun(states: seq<Chunks>, log: seq<Write>)
    requires Sized(log)
  {
    && |states| == |log| + 1 && states[0] == map[]
    && forall i :: 0 <= i < |log| ==> Inserted(states[i], states[i + 1], log[i].offset, log[i].bytes, log[i].chunkSize)
  }

  /** After any sequence of inserts, with any chunk sizes, what a reader sees is the latest visible write. */
  lemma {:induction false} FileHistory(states: seq<Chunks>, log: seq<Write>, c: U32, o: U64)
    requires c > 0 && Sized(log) && FileRun(states, log)
    ensures View(states[|log|], c, o) == Visible(log, c, o) && ChunksValid(states[|log|])
    decreases |log|
  {
    if log != [] {
      var n := |log| - 1;
      var w := log[n];
      FileHistory(states[..n + 1], log[..n], c, o);
      assert states[..n + 1][n] == states[n];
      assert Inserted(states[n], states[n + 1], w.offset, w.bytes, w.chunkSize);
      assert View(states[n + 1], c, o) == Override(Filed(w.offset, w.bytes, w.chunkSize, ChunkBase(o, c), o), View(states[n], c, o));
    }
  }

  ghost predicate Uniform(log: seq<Write>, c: U32) {
    forall w :: w in log ==> w.chunkSize == c
  }

  lemma {:induction false} UniformVisible(log: seq<Write>, c: U32, d: U32, o: U64)
    requires c > 0 && d > 0 && Sized(log) && Uniform(log, c)
    ensures Visible(log, d, o) == if ChunkBase(o, d) == ChunkBase(o, c) then Latest(log, o) else None
  {
    if log != [] {
      UniformVisible(log[..|log| - 1], c, d, o);
      assert log[|log| - 1] in log;
    }
  }

  /**
    With one chunk size a reader sees exactly the latest writes.  After a change of the size, which
    does not clear the cache, it sees only those whose chunk key does not move.
   */
  lemma ChunkSizeChange(states: seq<Chunks>, log: seq<Write>, c: U32, d: U32, o: U64)
    requires c > 0 && d > 0 && Sized(log) && Uniform(log, c) && FileRun(states, log)
    ensures View(states[|log|], c, o) == Latest(log, o)
    ensures View(states[|log|], d, o) == if ChunkBase(o, d) == ChunkBase(o, c) then Latest(log, o) else None
  {
    FileHistory(states, log, c, o);
    FileHistory(states, log, d, o);
    UniformVisible(log, c, c, o);
    UniformVisible(log, c, d, o);
  }

  /** Concretely: a byte cached at offset 4 with chunk size 8 is not found with chunk size 4. */
  lemma ChunkSizeChangeLosesBytes(b: Byte)
    ensures exists chunks: Chunks :: Inserted(map[], chunks, 4, [b], 8) && View(chunks, 8, 4) == Some(b) && View(chunks, 4, 4).None?
  {
    var range := CachedRange(4, [b]);
    var chunks: Chunks := map[0 := [range]];
    assert ChunkBase(4, 8) == 0 && ChunkBase(4, 4) == 4;
    LookupIs([range], range, 4);
    forall k, o ensures ChunkLookup(chunks, k, o) == Override(Filed(4, [b], 8, k, o), ChunkLookup(map[], k, o)) {
      if o == 4 {
        assert Filed(4, [b], 8, 0, 4) == Some(b);
      }
    }
    assert Inserted(map[], chunks, 4, [b], 8);
  }

  // ---- the cache -----------------------------------------------------------

  datatype CacheKey = CacheKey(promiseId: string, relativePath: string)

  type CacheFiles = map<CacheKey, Chunks>

  ghost predicate CacheValid(files: CacheFiles) {
    forall key :: key in files ==> ChunksValid(files[key])
  }

  ghost function FileOf(files: CacheFiles, key: CacheKey): Chunks {
    if key in files then files[key] else map[]
  }

  /** Only the file of `key` changes, and it changes as a file-level insert. */
  ghost predicate CacheInserted(before: CacheFiles, after: CacheFiles, key: CacheKey, offset: U64, bytes: seq<Byte>, c: U32)
    requires c > 0
  {
    && after.Keys == before.Keys + {key}
    && (forall q :: q in before && q != key ==> after[q] == before[q])
    && Inserted(FileOf(before, key), after[key], offset, bytes, c)
  }

  ghost predicate CacheAnswers(files: CacheFiles, key: CacheKey, c: U32, offset: U64, length: nat, r: Option<seq<Byte>>)
    requires c > 0
  {
    if key in files then ReadAnswers(files[key], c, offset, length, r) else r.None?
  }

  ghost predicate AllPresent(files: CacheFiles, key: CacheKey, c: U32, offset: U64, length: nat)
    requires c > 0
  {
    && key in files && offset + length <= MAX_U64
    && forall o :: offset <= o < offset + length ==> View(files[key], c, o).Some?
  }

  /** The result of a cache read: all bytes of the range, or a miss. */
  ghost function Hit(files: CacheFiles, key: CacheKey, c: U32, offset: U64, length: nat): Option<seq<Byte>>
    requires c > 0
  {
    if AllPresent(files, key, c, offset, length) then
      Some(seq(length, i requires 0 <= i < length => var byte := View(files[key], c, offset + i); if byte.Some? then byte.value else 0))
    else
      None
  }

  /** An exact answer is the hit: the read is determined by the abstract map. */
  lemma AnswerIsHit(files: CacheFiles, key: CacheKey, c: U32, offset: U64, length: nat, r: Option<seq<Byte>>)
    requires c > 0
    ensures CacheAnswers(files, key, c, offset, length, r) <==> r == Hit(files, key, c, offset, length)
  {
    var hit := Hit(files, key, c, offset, length);
    if hit.Some? {
      forall o | offset <= o < offset + length ensures View(files[key], c, o) == Some(hit.value[o - offset]) {
        assert offset + (o - offset) == o;
      }
      if CacheAnswers(files, key, c, offset, length, r) {
        forall i | 0 <= i < length ensures r.value[i] == hit.value[i] {
          assert View(files[key], c, offset + i) == Some(r.value[offset + i - offset]);
        }
        assert r.value == hit.value;
      }
    }
  }

  class ReadCache {
    var files: CacheFiles

    constructor (files: CacheFiles)
      ensures this.files == files
    {
      this.files := files;
    }

    method Clear()
      modifies this
      ensures files == map[]
    {
      files := map[];
    }

    method Read(promiseId: string, relativePath: string, offset: U64, length: U64, chunkSize: U32)
      returns (r: Option<seq<Byte>>)
      requires chunkSize > 0 && CacheValid(files)
      ensures r == Hit(files, CacheKey(promiseId, relativePath), chunkSize, offset, length)
    {
      var key := CacheKey(promiseId, relativePath);
      if key !in files {
        return None;
      }
      var file := new CachedFile(files[key]);
      r := file.Read(offset, length, chunkSize);
      AnswerIsHit(files, key, chunkSize, offset, length, r);
    }

    method Insert(promiseId: string, relativePath: string, offset: U64, bytes: seq<Byte>, chunkSize: U32)
      requires chunkSize > 0 && CacheValid(files)
      modifies this
      ensures CacheValid(files)
      ensures CacheInserted(old(files), files, CacheKey(promiseId, relativePath), offset, bytes, chunkSize)
    {
      var key := CacheKey(promiseId, relativePath);
      var file := new CachedFile(if key in files then files[key] else map[]);
      file.Insert(offset, bytes, chunkSize);
      files := files[key := file.chunks];
    }
  }

  // ---- truth of cached bytes -----------------------------------------------

  type Contents = CacheKey -> seq<Byte>

  /** Every byte stored anywhere in the cache is the true byte of its file, whatever its chunk key. */
  ghost predicate Truthful(files: CacheFiles, content: Contents) {
    forall key, k, o :: key in files && ChunkLookup(files[key], k, o).Some? ==>
      0 <= o < |content(key)| && ChunkLookup(files[key], k, o) == Some(content(key)[o])
  }

  /** Recording true bytes keeps the cache truthful, for any mix of chunk sizes over time. */
  lemma InsertKeepsTruth(before: CacheFiles, after: CacheFiles, content: Contents, key: CacheKey, offset: U64,
                         bytes: seq<Byte>, c: U32)
    requires c > 0 && Truthful(before, content)
    requires CacheInserted(before, after, key, offset, bytes, c)
    requires offset + |bytes| <= |content(key)| && bytes == content(key)[offset..offset + |bytes|]
    ensures Truthful(after, content)
  {
    forall q, k, o | q in after && ChunkLookup(after[q], k, o).Some?
      ensures 0 <= o < |content(q)| && ChunkLookup(after[q], k, o) == Some(content(q)[o])
    {
      if q == key {
        assert ChunkLookup(after[key], k, o)
            == Override(Filed(offset, bytes, c, k, o), ChunkLookup(FileOf(before, key), k, o));
      } else {
        assert ChunkLookup(before[q], k, o).Some?;
      }
    }
  }

  /** A nonempty hit returns exactly the true bytes, with any chunk size. */
  lemma HitIsTrue(files: CacheFiles, content: Contents, key: CacheKey, c: U32, offset: U64, length: nat)
    requires c > 0 && length > 0 && Truthful(files, content) && Hit(files, key, c, offset, length).Some?
    ensures offset + length <= |content(key)|
    ensures Hit(files, key, c, offset, length).value == content(key)[offset..offset + length]
  {
    var r := Hit(files, key, c, offset, length);
    AnswerIsHit(files, key, c, offset, length, r);
    forall o | offset <= o < offset + length
      ensures o < |content(key)| && r.value[o - offset] == content(key)[o]
    {
      assert View(files[key], c, o) == Some(r.value[o - offset]);
    }
    var last := offset + length - 1;
    assert View(files[key], c, last) == Some(r.value[last - offset]);
  }
}
