/**
  Relative paths as the runtime keeps them: components joined by '/', normalized, with the
  parent and leaf found at the last '/'.  Also the key order of the source's ordered maps
  and the decimal rendering of counters.
 */
module Paths {
  import opened Base

  const NUL: char := '\0'

  // ---- names and joining ---------------------------------------------------

  /** A child name that `validate_child_name` accepts. */
  predicate GoodName(name: string) {
    name != "" && name != "." && name != ".." && NUL !in name && '/' !in name
  }

  function ChildPath(parent: string, name: string): string {
    if parent == "" then name else parent + "/" + name
  }

  /** The number of characters before the last '/', or None without one. */
  function LastSlash(s: string): (r: Option<nat>)
    ensures r.None? <==> '/' !in s
    ensures r.Some? ==> r.value < |s| && s[r.value] == '/' && '/' !in s[r.value + 1..]
  {
    if s == "" then None
    else if s[|s| - 1] == '/' then Some(|s| - 1)
    else
      var r := LastSlash(s[..|s| - 1]);
      assert r.Some? ==> s[r.value + 1..] == s[..|s| - 1][r.value + 1..] + [s[|s| - 1]];
      assert s == s[..|s| - 1] + [s[|s| - 1]];
      r
  }

  /** `rsplit_once('/')`, the part before. */
  function ParentPath(path: string): (r: string)
    ensures path != "" ==> |r| < |path|
  {
    var i := LastSlash(path);
    if i.None? then "" else path[..i.value]
  }

  /** `rsplit_once('/')`, the part after. */
  function LeafName(path: string): string {
    var i := LastSlash(path);
    if i.None? then path else path[i.value + 1..]
  }

  lemma {:induction false} LastSlashUnique(d: string, n: string)
    requires '/' !in n
    ensures LastSlash(d + "/" + n) == Some(|d|)
    decreases |n|
  {
    var s := d + "/" + n;
    if n == "" {
      assert s[|s| - 1] == '/';
    } else {
      var init := n[..|n| - 1];
      LastSlashUnique(d, init);
      assert s[|s| - 1] == n[|n| - 1] && n[|n| - 1] in n;
      assert s[..|s| - 1] == d + "/" + init;
    }
  }

  /** A path built from a parent and a plain name splits back into the two. */
  lemma ChildSplits(d: string, n: string)
    requires '/' !in n
    ensures ParentPath(ChildPath(d, n)) == d && LeafName(ChildPath(d, n)) == n
  {
    if d != "" {
      LastSlashUnique(d, n);
    }
  }

  /** A normalized path: good names joined by single slashes, or the empty root path. */
  ghost predicate Normal(p: string)
    decreases |p|
  {
    p == "" ||
    (GoodName(LeafName(p)) && p == ChildPath(ParentPath(p), LeafName(p)) && Normal(ParentPath(p)))
  }

  lemma ChildNormal(d: string, n: string)
    requires Normal(d) && GoodName(n)
    ensures Normal(ChildPath(d, n)) && ChildPath(d, n) != ""
  {
    ChildSplits(d, n);
  }

  // ---- normalization -------------------------------------------------------

  /** The '/'-separated pieces of a string, empty ones included. */
  function Split(s: string): seq<string>
    decreases |s|
  {
    var i := LastSlash(s);
    if i.None? then [s] else Split(s[..i.value]) + [s[i.value + 1..]]
  }

  function Join(parts: seq<string>): string {
    if parts == [] then "" else ChildPath(Join(parts[..|parts| - 1]), parts[|parts| - 1])
  }

  /** Drops the empty pieces and ".", refuses "..". */
  function Kept(pieces: seq<string>): Option<seq<string>> {
    if pieces == [] then Some([])
    else
      var rest := Kept(pieces[..|pieces| - 1]);
      var piece := pieces[|pieces| - 1];
      if rest.None? || piece == ".." then None
      else if piece == "" || piece == "." then rest
      else Some(rest.value + [piece])
  }

  function Normalized(input: string): Result<string> {
    if NUL in input || (input != "" && input[0] == '/') then Err(InvalidArgument)
    else
      var parts := Kept(Split(input));
      if parts.None? then Err(InvalidArgument) else Ok(Join(parts.value))
  }

  method NormalizeRelativePath(input: string) returns (r: Result<string>)
    ensures r == Normalized(input)
  {
    if NUL in input || (input != "" && input[0] == '/') {
      return Err(InvalidArgument);
    }
    var pieces := Split(input);
    var parts: seq<string> := [];
    for i := 0 to |pieces|
      invariant Kept(pieces[..i]) == Some(parts)
    {
      assert pieces[..i + 1][..i] == pieces[..i];
      if pieces[i] == ".." {
        KeptPrefix(pieces, i + 1);
        return Err(InvalidArgument);
      }
      if pieces[i] != "" && pieces[i] != "." {
        parts := parts + [pieces[i]];
      }
    }
    assert pieces[..|pieces|] == pieces;
    return Ok(Join(parts));
  }

  lemma {:induction false} KeptPrefix(pieces: seq<string>, i: nat)
    requires i <= |pieces| && Kept(pieces[..i]).None?
    ensures Kept(pieces).None?
    decreases |pieces|
  {
    if i == |pieces| {
      assert pieces[..i] == pieces;
    } else {
      assert pieces[..|pieces| - 1][..i] == pieces[..i];
      KeptPrefix(pieces[..|pieces| - 1], i);
    }
  }

  lemma {:induction false} SplitPieces(s: string)
    ensures forall piece :: piece in Split(s) ==> '/' !in piece && (NUL !in s ==> NUL !in piece)
    decreases |s|
  {
    if LastSlash(s).Some? {
      SplitPieces(s[..LastSlash(s).value]);
    }
  }

  lemma {:induction false} KeptGood(pieces: seq<string>)
    requires Kept(pieces).Some?
    requires forall piece :: piece in pieces ==> '/' !in piece && NUL !in piece
    ensures forall part :: part in Kept(pieces).value ==> GoodName(part)
  {
    if pieces != [] {
      KeptGood(pieces[..|pieces| - 1]);
    }
  }

  lemma {:induction false} JoinNormal(parts: seq<string>)
    requires forall part :: part in parts ==> GoodName(part)
    ensures Normal(Join(parts))
  {
    if parts != [] {
      JoinNormal(parts[..|parts| - 1]);
      ChildNormal(Join(parts[..|parts| - 1]), parts[|parts| - 1]);
    }
  }

  /** Whatever is accepted comes out normalized. */
  lemma NormalizedIsNormal(input: string)
    requires Normalized(input).Ok?
    ensures Normal(Normalized(input).value)
  {
    SplitPieces(input);
    KeptGood(Split(input));
    JoinNormal(Kept(Split(input)).value);
  }

  lemma KeptSnoc(pieces: seq<string>, piece: string)
    requires Kept(pieces) == Some(pieces) && GoodName(piece)
    ensures Kept(pieces + [piece]) == Some(pieces + [piece])
    ensures Join(pieces + [piece]) == ChildPath(Join(pieces), piece)
  {
    assert (pieces + [piece])[..|pieces|] == pieces;
  }

  lemma {:induction false} NormalParts(p: string)
    requires Normal(p) && p != ""
    ensures Kept(Split(p)) == Some(Split(p)) && Join(Split(p)) == p
    ensures NUL !in p && p[0] != '/'
    decreases |p|
  {
    var d, n := ParentPath(p), LeafName(p);
    if d == "" {
      assert Split(p) == [] + [n];
      KeptSnoc([], n);
    } else {
      LastSlashUnique(d, n);
      assert p == d + "/" + n;
      assert p[..|d|] == d && p[|d| + 1..] == n;
      NormalParts(d);
      KeptSnoc(Split(d), n);
      assert p[0] == d[0];
    }
  }

  /** Normalization fixes exactly the normalized paths. */
  lemma NormalizedFixpoint(p: string)
    ensures Normalized(p) == Ok(p) <==> Normal(p)
  {
    if Normal(p) {
      if p == "" {
        assert Split("") == [""];
        assert Kept([""]) == Some([]);
      } else {
        NormalParts(p);
      }
    } else if Normalized(p).Ok? {
      NormalizedIsNormal(p);
    }
  }

  /** The components of a normalized path. */
  function Parts(path: string): seq<string> {
    if path == "" then [] else Split(path)
  }

  lemma SplitSnoc(d: string, n: string)
    requires '/' !in n
    ensures Split(d + "/" + n) == Split(d) + [n]
  {
    LastSlashUnique(d, n);
    var p := d + "/" + n;
    assert p[..|d|] == d && p[|d| + 1..] == n;
  }

  lemma PartsSnoc(d: string, n: string)
    requires '/' !in n && n != ""
    ensures Parts(ChildPath(d, n)) == Parts(d) + [n]
  {
    if d == "" {
      assert Split(n) == [n];
    } else {
      SplitSnoc(d, n);
    }
  }

  lemma {:induction false} PartsInjective(a: string, b: string)
    requires Normal(a) && Normal(b) && Parts(a) == Parts(b)
    ensures a == b
    decreases |a|
  {
    if a != "" { PartsSnoc(ParentPath(a), LeafName(a)); }
    if b != "" { PartsSnoc(ParentPath(b), LeafName(b)); }
    if a != "" && b != "" {
      assert Parts(ParentPath(a)) == Parts(a)[..|Parts(a)| - 1] == Parts(ParentPath(b));
      assert LeafName(a) == Parts(a)[|Parts(a)| - 1] == LeafName(b);
      PartsInjective(ParentPath(a), ParentPath(b));
    }
  }

  /** The pieces that name something. */
  function Meaningful(pieces: seq<string>): seq<string> {
    if pieces == [] then []
    else (if pieces[0] == "" || pieces[0] == "." then [] else [pieces[0]]) + Meaningful(pieces[1..])
  }

  lemma {:induction false} MeaningfulSnoc(pieces: seq<string>, piece: string)
    ensures Meaningful(pieces + [piece]) == Meaningful(pieces) + Meaningful([piece])
  {
    if pieces == [] {
      assert pieces + [piece] == [piece];
    } else {
      var rest := pieces[1..];
      MeaningfulSnoc(rest, piece);
      assert (pieces + [piece])[1..] == rest + [piece];
      var first := if pieces[0] == "" || pieces[0] == "." then [] else [pieces[0]];
      assert first + (Meaningful(rest) + Meaningful([piece])) == first + Meaningful(rest) + Meaningful([piece]);
    }
  }

  lemma {:induction false} KeptExact(pieces: seq<string>)
    ensures Kept(pieces).None? <==> ".." in pieces
    ensures Kept(pieces).Some? ==> Kept(pieces).value == Meaningful(pieces)
  {
    if pieces != [] {
      var init, last := pieces[..|pieces| - 1], pieces[|pieces| - 1];
      assert pieces == init + [last];
      KeptExact(init);
      MeaningfulSnoc(init, last);
    }
  }

  lemma {:induction false} PartsOfJoin(parts: seq<string>)
    requires forall part :: part in parts ==> GoodName(part)
    ensures Parts(Join(parts)) == parts
  {
    if parts != [] {
      var init, last := parts[..|parts| - 1], parts[|parts| - 1];
      assert parts == init + [last];
      PartsOfJoin(init);
      assert GoodName(last);
      PartsSnoc(Join(init), last);
    }
  }

  /** Pieces put together again with a '/' between any two. */
  function Glued(pieces: seq<string>): string {
    if pieces == [] then ""
    else if |pieces| == 1 then pieces[0]
    else Glued(pieces[..|pieces| - 1]) + "/" + pieces[|pieces| - 1]
  }

  lemma GluedSnoc(pieces: seq<string>, piece: string)
    requires pieces != []
    ensures Glued(pieces + [piece]) == Glued(pieces) + "/" + piece
  {
    assert (pieces + [piece])[..|pieces|] == pieces;
  }

  lemma {:induction false} SplitGlues(s: string)
    ensures Glued(Split(s)) == s && Split(s) != []
    decreases |s|
  {
    var i := LastSlash(s);
    if i.Some? {
      var d, n := s[..i.value], s[i.value + 1..];
      SplitGlues(d);
      GluedSnoc(Split(d), n);
      assert s == d + "/" + n;
    }
  }

  /**
    A path is refused exactly for a NUL, a leading '/' or a ".." piece; otherwise its components are
    the pieces between its slashes, in order, less the empty ones and ".".
   */
  lemma NormalizedExact(input: string)
    ensures Glued(Split(input)) == input
    ensures forall piece :: piece in Split(input) ==> '/' !in piece
    ensures Normalized(input).Err? <==> NUL in input || "/" <= input || ".." in Split(input)
    ensures Normalized(input).Ok? ==> Parts(Normalized(input).value) == Meaningful(Split(input))
  {
    SplitGlues(input);
    KeptExact(Split(input));
    SplitPieces(input);
    if Normalized(input).Ok? {
      KeptGood(Split(input));
      PartsOfJoin(Kept(Split(input)).value);
    }
  }

  // ---- the order of map keys -----------------------------------------------

  /** Byte order of UTF-8 strings, which is code point order. */
  predicate Below(a: string, b: string) {
    b != "" && (a == "" || a[0] < b[0] || (a[0] == b[0] && Below(a[1..], b[1..])))
  }

  lemma {:induction false} BelowTotal(a: string, b: string)
    ensures !Below(a, a)
    ensures a == b || Below(a, b) || Below(b, a)
    ensures !(Below(a, b) && Below(b, a))
  {
    if a != "" && b != "" {
      BelowTotal(a[1..], b[1..]);
      assert a == [a[0]] + a[1..] && b == [b[0]] + b[1..];
    }
    if a != "" && b == "" {
      BelowTotal(a[1..], b);
    }
  }

  lemma {:induction false} BelowTransitive(a: string, b: string, c: string)
    requires Below(a, b) && Below(b, c)
    ensures Below(a, c)
  {
    if a != "" && a[0] == b[0] == c[0] {
      BelowTransitive(a[1..], b[1..], c[1..]);
    }
  }

  /** A proper prefix sorts first. */
  lemma {:induction false} PrefixBelow(a: string, b: string)
    requires a < b
    ensures Below(a, b)
  {
    if a != "" {
      PrefixBelow(a[1..], b[1..]);
    }
  }

  /** So every parent path sorts before its children. */
  lemma ParentBelow(p: string)
    requires p != ""
    ensures Below(ParentPath(p), p)
  {
    PrefixBelow(ParentPath(p), p);
  }

  predicate IsLeast(x: string, s: set<string>) {
    x in s && forall y :: y in s && y != x ==> Below(x, y)
  }

  lemma {:induction false} LeastExists(s: set<string>)
    requires s != {}
    ensures exists x :: IsLeast(x, s)
    ensures forall x, y :: IsLeast(x, s) && IsLeast(y, s) ==> x == y
    decreases s
  {
    forall x, y | IsLeast(x, s) && IsLeast(y, s) ensures x == y {
      BelowTotal(x, y);
    }
    var x :| x in s;
    if s == {x} {
      assert IsLeast(x, s);
    } else {
      var rest := s - {x};
      LeastExists(rest);
      var y :| IsLeast(y, rest);
      BelowTotal(x, y);
      if Below(x, y) {
        forall z | z in s && z != x ensures Below(x, z) {
          if z != y { BelowTransitive(x, y, z); }
        }
        assert IsLeast(x, s);
      } else {
        assert IsLeast(y, s);
      }
    }
  }

  function Least(s: set<string>): (x: string)
    requires s != {}
    ensures IsLeast(x, s)
  {
    LeastExists(s);
    var x :| x in s && IsLeast(x, s);
    x
  }

  /** The iteration order of an ordered set, or of the keys of an ordered map. */
  function InOrder(s: set<string>): seq<string> {
    if s == {} then [] else [Least(s)] + InOrder(s - {Least(s)})
  }

  ghost predicate StrictlySorted(keys: seq<string>) {
    forall i, j :: 0 <= i < j < |keys| ==> Below(keys[i], keys[j])
  }

  lemma {:induction false} InOrderSorted(s: set<string>)
    ensures forall x :: x in InOrder(s) <==> x in s
    ensures StrictlySorted(InOrder(s))
    ensures |InOrder(s)| == |s|
    decreases s
  {
    if s != {} {
      var m := Least(s);
      var rest := InOrder(s - {m});
      InOrderSorted(s - {m});
      var keys := [m] + rest;
      assert keys == InOrder(s);
      forall i, j | 0 <= i < j < |keys| ensures Below(keys[i], keys[j]) {
        assert keys[j] == rest[j - 1] && rest[j - 1] in rest;
        assert i > 0 ==> keys[i] == rest[i - 1];
      }
      assert forall x :: x in keys <==> x == m || x in rest;
    }
  }

  lemma InOrderDistinct(s: set<string>, i: nat, j: nat)
    requires i < |InOrder(s)| && j < |InOrder(s)|
    ensures InOrder(s)[i] in s
    ensures InOrder(s)[i] == InOrder(s)[j] <==> i == j
  {
    InOrderSorted(s);
    var keys := InOrder(s);
    assert keys[i] in keys;
    BelowTotal(keys[i], keys[j]);
    if i < j { assert Below(keys[i], keys[j]); }
    if j < i { assert Below(keys[j], keys[i]); }
  }

  lemma InOrderIndex(s: set<string>, k: string) returns (i: nat)
    requires k in s
    ensures i < |InOrder(s)| && InOrder(s)[i] == k
  {
    InOrderSorted(s);
    var keys := InOrder(s);
    assert k in keys;
    i :| 0 <= i < |keys| && keys[i] == k;
  }

  // ---- counters in decimal -------------------------------------------------

  function Digit(d: nat): char
    requires d < 10
  {
    "0123456789"[d]
  }

  function Decimal(n: nat): string {
    if n < 10 then [Digit(n)] else Decimal(n / 10) + [Digit(n % 10)]
  }

  /** The number that digits stand for, most significant first. */
  function Value(digits: string): int {
    if digits == "" then 0 else 10 * Value(digits[..|digits| - 1]) + digits[|digits| - 1] as int - '0' as int
  }

  lemma {:induction false} DecimalValue(n: nat)
    ensures Value(Decimal(n)) == n
  {
    var s := Decimal(n);
    assert s[|s| - 1] == Digit(n % 10);
    if n < 10 {
      assert s[..|s| - 1] == "";
    } else {
      assert s[..|s| - 1] == Decimal(n / 10);
      DecimalValue(n / 10);
    }
  }

  lemma DecimalInjective(a: nat, b: nat)
    requires Decimal(a) == Decimal(b)
    ensures a == b
  {
    DecimalValue(a);
    DecimalValue(b);
  }

  lemma {:induction false} DecimalDigits(n: nat)
    ensures forall c :: c in Decimal(n) ==> '0' <= c <= '9'
  {
    if n >= 10 {
      DecimalDigits(n / 10);
    }
  }

  function PromiseName(n: nat): string {
    "promise-" + Decimal(n)
  }

  /** Promise identifiers never collide and are valid directory entry names. */
  lemma PromiseNames(a: nat, b: nat)
    ensures PromiseName(a) == PromiseName(b) ==> a == b
    ensures GoodName(PromiseName(a))
  {
    if PromiseName(a) == PromiseName(b) {
      assert PromiseName(a)[8..] == Decimal(a) && PromiseName(b)[8..] == Decimal(b);
      DecimalInjective(a, b);
    }
    DecimalDigits(a);
    assert PromiseName(a)[0] == 'p';
  }
}
