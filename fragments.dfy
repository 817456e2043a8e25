// The fragment lists of prim.py: runs [lo, hi] of rows (per column, in the
// global vlines of add_vline and drawvlines) or of columns (per row, in the
// scanline hash of floodfill), how a point is added to them and how touching
// fragments are merged.

module Fragments {
  import opened Support

  /** A closed run lo..hi, the two-element list [lo, hi] of the source. */
  datatype Frag = Frag(lo: int, hi: int)

  predicate WellFormed(fs: seq<Frag>)
  {
    forall i | 0 <= i < |fs| :: fs[i].lo <= fs[i].hi
  }

  predicate Holds(f: Frag, v: int)
  {
    f.lo <= v <= f.hi
  }

  /** Some fragment of fs contains v. */
  predicate Covers(fs: seq<Frag>, v: int)
  {
    fs != [] && (Holds(fs[0], v) || Covers(fs[1..], v))
  }

  lemma {:induction false} CoversConcat(a: seq<Frag>, b: seq<Frag>, v: int)
    ensures Covers(a + b, v) <==> Covers(a, v) || Covers(b, v)
  {
    if a == [] {
      assert a + b == b;
    } else {
      assert (a + b)[1..] == a[1..] + b;
      CoversConcat(a[1..], b, v);
    }
  }

  /** The existential reading of Covers. */
  lemma {:induction false} CoversIndex(fs: seq<Frag>, v: int)
    ensures Covers(fs, v) <==> exists i | 0 <= i < |fs| :: Holds(fs[i], v)
  {
    if fs != [] {
      CoversIndex(fs[1..], v);
      if exists i | 0 <= i < |fs| :: Holds(fs[i], v) {
        var i :| 0 <= i < |fs| && Holds(fs[i], v);
        if i > 0 {
          assert fs[1..][i - 1] == fs[i];
        }
      }
      if exists i | 0 <= i < |fs[1..]| :: Holds(fs[1..][i], v) {
        var i :| 0 <= i < |fs[1..]| && Holds(fs[1..][i], v);
        assert fs[i + 1] == fs[1..][i];
      }
    }
  }

  /** a and b cover the same values. */
  ghost predicate SameRows(a: seq<Frag>, b: seq<Frag>)
  {
    forall v :: Covers(a, v) <==> Covers(b, v)
  }

  // ---------------------------------------------------------------------
  // Adding one point (the inner loop of add_vline, prim.py:1003-1027, and
  // the scanline update of floodfill, prim.py:1384-1406)

  /** The first fragment that holds v, or ends right before or after it,
    * takes it in; if there is none a new fragment [v, v] goes at the end. */
  function Insert(fs: seq<Frag>, v: int): seq<Frag>
  {
    if fs == [] then [Frag(v, v)]
    else if fs[0].lo <= v <= fs[0].hi then fs
    else if fs[0].lo - 1 == v then [Frag(v, fs[0].hi)] + fs[1..]
    else if fs[0].hi + 1 == v then [Frag(fs[0].lo, v)] + fs[1..]
    else [fs[0]] + Insert(fs[1..], v)
  }

  /** The scan of the source: stop at the first fragment that contains or
    * touches v and update it there, else append [v, v]. */
  method AddPoint(fs: seq<Frag>, v: int) returns (r: seq<Frag>)
    ensures r == Insert(fs, v)
  {
    var i := 0;
    while i < |fs|
      invariant 0 <= i <= |fs|
      invariant forall k | 0 <= k < i :: !Touches(fs[k], v)
    {
      var f := fs[i];
      if v >= f.lo && v <= f.hi {
        InsertSkip(fs, i, v);
        InsertAt(fs, i, v);
        return fs;
      } else if f.lo - 1 == v {
        InsertSkip(fs, i, v);
        InsertAt(fs, i, v);
        return fs[..i] + [Frag(v, f.hi)] + fs[i + 1..];
      } else if f.hi + 1 == v {
        InsertSkip(fs, i, v);
        InsertAt(fs, i, v);
        return fs[..i] + [Frag(f.lo, v)] + fs[i + 1..];
      }
      i := i + 1;
    }
    InsertSkip(fs, i, v);
    assert fs[i..] == [] && fs[..i] == fs;
    r := fs + [Frag(v, v)];
  }

  /** Fragments that neither hold nor touch v are passed over. */
  lemma {:induction false} InsertSkip(fs: seq<Frag>, i: nat, v: int)
    requires i <= |fs| && forall k | 0 <= k < i :: !Touches(fs[k], v)
    ensures Insert(fs, v) == fs[..i] + Insert(fs[i..], v)
  {
    if i > 0 {
      InsertSkip(fs[1..], i - 1, v);
      assert fs[1..][..i - 1] == fs[1..i];
      assert fs[1..][i - 1..] == fs[i..];
      assert fs[..i] == [fs[0]] + fs[1..i];
    }
  }

  lemma {:induction false} InsertAt(fs: seq<Frag>, i: nat, v: int)
    requires i < |fs|
    ensures fs[..i] + fs[i..] == fs
    ensures Insert(fs[i..], v) ==
              if Holds(fs[i], v) then fs[i..]
              else if fs[i].lo - 1 == v then [Frag(v, fs[i].hi)] + fs[i + 1..]
              else if fs[i].hi + 1 == v then [Frag(fs[i].lo, v)] + fs[i + 1..]
              else [fs[i]] + Insert(fs[i + 1..], v)
  {
    assert fs[i..][1..] == fs[i + 1..];
  }

  /** After the insertion exactly v is covered in addition, and the
    * fragments stay well formed. */
  lemma {:induction false} InsertCovers(fs: seq<Frag>, v: int, w: int)
    requires WellFormed(fs)
    ensures WellFormed(Insert(fs, v))
    ensures Covers(Insert(fs, v), w) <==> Covers(fs, w) || w == v
  {
    var r := Insert(fs, v);
    if fs == [] {
      assert r[1..] == [];
    } else if Holds(fs[0], v) {
    } else if fs[0].lo - 1 == v || fs[0].hi + 1 == v {
      assert r[1..] == fs[1..];
    } else {
      assert WellFormed(fs[1..]);
      InsertCovers(fs[1..], v, w);
      assert r[1..] == Insert(fs[1..], v);
    }
  }

  /** f holds v or ends right next to it. */
  predicate Touches(f: Frag, v: int)
  {
    Holds(f, v) || f.lo - 1 == v || f.hi + 1 == v
  }

  /** A new fragment is made exactly when no fragment holds or touches v. */
  lemma {:induction false} InsertLength(fs: seq<Frag>, v: int)
    ensures |Insert(fs, v)| == if exists i | 0 <= i < |fs| :: Touches(fs[i], v) then |fs| else |fs| + 1
  {
    if fs != [] && !Touches(fs[0], v) {
      InsertLength(fs[1..], v);
      assert Insert(fs, v) == [fs[0]] + Insert(fs[1..], v);
      if exists i | 0 <= i < |fs| :: Touches(fs[i], v) {
        var i :| 0 <= i < |fs| && Touches(fs[i], v);
        assert fs[1..][i - 1] == fs[i];
      }
      if exists i | 0 <= i < |fs[1..]| :: Touches(fs[1..][i], v) {
        var i :| 0 <= i < |fs[1..]| && Touches(fs[1..][i], v);
        assert fs[i + 1] == fs[1..][i];
      }
    }
  }

  // ---------------------------------------------------------------------
  // Sorting (vlines[x].sort() in drawvlines)

  /** Python's order on the lists [lo, hi]: lexicographic. */
  predicate FragLe(a: Frag, b: Frag)
  {
    a.lo < b.lo || (a.lo == b.lo && a.hi <= b.hi)
  }

  predicate SortedFrags(fs: seq<Frag>)
  {
    forall i | 0 <= i < |fs| - 1 :: FragLe(fs[i], fs[i + 1])
  }

  function InsertSorted(f: Frag, s: seq<Frag>): seq<Frag>
  {
    if s == [] then [f]
    else if FragLe(f, s[0]) then [f] + s
    else [s[0]] + InsertSorted(f, s[1..])
  }

  /** list.sort(), as an insertion sort. */
  function SortFrags(fs: seq<Frag>): seq<Frag>
  {
    if fs == [] then [] else InsertSorted(fs[0], SortFrags(fs[1..]))
  }

  lemma {:induction false} InsertSortedProps(f: Frag, s: seq<Frag>)
    requires SortedFrags(s)
    ensures |InsertSorted(f, s)| == |s| + 1
    ensures InsertSorted(f, s)[0] == f || (s != [] && InsertSorted(f, s)[0] == s[0])
    ensures SortedFrags(InsertSorted(f, s))
    ensures multiset(InsertSorted(f, s)) == multiset(s) + multiset{f}
  {
    if s != [] && !FragLe(f, s[0]) {
      var t := s[1..];
      assert SortedFrags(t) by {
        assert forall i | 0 <= i < |t| :: t[i] == s[i + 1];
      }
      InsertSortedProps(f, t);
      var r := InsertSorted(f, t);
      var u := [s[0]] + r;
      assert u == InsertSorted(f, s);
      assert FragLe(s[0], r[0]);
      assert forall i | 1 <= i < |u| :: u[i] == r[i - 1];
      assert s == [s[0]] + t;
    }
  }

  /** Sorting yields a sorted permutation. */
  lemma {:induction false} SortFragsProps(fs: seq<Frag>)
    ensures SortedFrags(SortFrags(fs))
    ensures multiset(SortFrags(fs)) == multiset(fs)
  {
    if fs != [] {
      SortFragsProps(fs[1..]);
      InsertSortedProps(fs[0], SortFrags(fs[1..]));
      assert fs == [fs[0]] + fs[1..];
    }
  }

  lemma {:induction false} InsertSortedCovers(f: Frag, s: seq<Frag>, v: int)
    ensures Covers(InsertSorted(f, s), v) <==> Holds(f, v) || Covers(s, v)
    ensures WellFormed(InsertSorted(f, s)) <==> f.lo <= f.hi && WellFormed(s)
  {
    var r := InsertSorted(f, s);
    if s == [] {
      assert r[1..] == [];
    } else if FragLe(f, s[0]) {
      assert r[1..] == s;
    } else {
      InsertSortedCovers(f, s[1..], v);
      assert r[1..] == InsertSorted(f, s[1..]);
      assert WellFormed(s) <==> s[0].lo <= s[0].hi && WellFormed(s[1..]);
      assert WellFormed(r) <==> r[0].lo <= r[0].hi && WellFormed(r[1..]);
    }
  }

  /** Sorting a column's fragments leaves its rows as they were. */
  lemma {:induction false} SortFragsCovers(fs: seq<Frag>, v: int)
    ensures Covers(SortFrags(fs), v) <==> Covers(fs, v)
    ensures WellFormed(SortFrags(fs)) <==> WellFormed(fs)
  {
    if fs != [] {
      SortFragsCovers(fs[1..], v);
      InsertSortedCovers(fs[0], SortFrags(fs[1..]), v);
      assert WellFormed(fs) <==> fs[0].lo <= fs[0].hi && WellFormed(fs[1..]);
    }
  }

  // ---------------------------------------------------------------------
  // Merging (drawvlines, prim.py:1231-1244; floodfill, prim.py:1416-1429)

  /** The merge test of the source. floodfill merges fragments that end
    * right next to each other; drawvlines also merges fragments that share
    * an end. */
  predicate Mergeable(a: Frag, b: Frag, shareEnds: bool)
  {
    a.lo + 1 == b.hi || a.hi - 1 == b.lo || a.hi + 1 == b.lo || a.lo - 1 == b.hi ||
    (shareEnds && (a.lo == b.hi || a.hi == b.lo))
  }

  /** The merge test does not depend on the order of the two fragments. */
  lemma {:induction false} MergeableSymmetric(a: Frag, b: Frag, shareEnds: bool)
    ensures Mergeable(a, b, shareEnds) <==> Mergeable(b, a, shareEnds)
  {
  }

  /** Some two fragments of the list pass the merge test. */
  ghost predicate AnyMergeable(fs: seq<Frag>, shareEnds: bool)
  {
    exists i, j | 0 <= i < j < |fs| :: Mergeable(fs[i], fs[j], shareEnds)
  }

  /** Removing the element at k takes one copy of it out of the multiset. */
  lemma {:induction false} RemoveAt(s: seq<Frag>, k: nat)
    requires k < |s|
    ensures multiset(s[..k] + s[k + 1..]) == multiset(s) - multiset{s[k]}
  {
    assert s == s[..k] + [s[k]] + s[k + 1..];
  }

  /** A value that is left after taking out one copy of b[k] sits at some
    * other position of b. */
  lemma {:induction false} OtherPosition(b: seq<Frag>, k: nat, y: Frag) returns (l: nat)
    requires k < |b| && y in multiset(b) - multiset{b[k]}
    ensures l < |b| && l != k && b[l] == y
  {
    var b' := b[..k] + b[k + 1..];
    RemoveAt(b, k);
    var l' :| 0 <= l' < |b'| && b'[l'] == y;
    if l' < k {
      l := l';
      assert b'[l'] == b[l'];
    } else {
      l := l' + 1;
      assert b'[l'] == b[l' + 1];
    }
  }

  /** Two different positions of b hold the fragments at positions i and j
    * of a, when b is a permutation of a. */
  lemma {:induction false} TwoPositions(a: seq<Frag>, b: seq<Frag>, i: nat, j: nat) returns (k: nat, l: nat)
    requires multiset(a) == multiset(b) && i < j < |a|
    ensures k < |b| && l < |b| && k != l && b[k] == a[i] && b[l] == a[j]
  {
    assert a[i] in multiset(a);
    k :| 0 <= k < |b| && b[k] == a[i];
    RemoveAt(a, i);
    assert (a[..i] + a[i + 1..])[j - 1] == a[j];
    l := OtherPosition(b, k, a[j]);
  }

  /** Whether some pair passes the merge test does not depend on the
    * order of the list. */
  lemma {:induction false} AnyMergeablePerm(a: seq<Frag>, b: seq<Frag>, shareEnds: bool)
    requires multiset(a) == multiset(b)
    ensures AnyMergeable(a, shareEnds) <==> AnyMergeable(b, shareEnds)
  {
    if AnyMergeable(a, shareEnds) {
      var i, j :| 0 <= i < j < |a| && Mergeable(a[i], a[j], shareEnds);
      var k, l := TwoPositions(a, b, i, j);
      MergeableSymmetric(b[k], b[l], shareEnds);
      if k < l {
        assert Mergeable(b[k], b[l], shareEnds);
      } else {
        assert Mergeable(b[l], b[k], shareEnds);
      }
    }
    if AnyMergeable(b, shareEnds) {
      var i, j :| 0 <= i < j < |b| && Mergeable(b[i], b[j], shareEnds);
      var k, l := TwoPositions(b, a, i, j);
      MergeableSymmetric(a[k], a[l], shareEnds);
      if k < l {
        assert Mergeable(a[k], a[l], shareEnds);
      } else {
        assert Mergeable(a[l], a[k], shareEnds);
      }
    }
  }

  /** [min(y1i,y1j,y2i,y2j), max(y1i,y1j,y2i,y2j)]. */
  function Hull(a: Frag, b: Frag): Frag
  {
    Frag(Min(Min(a.lo, b.lo), Min(a.hi, b.hi)), Max(Max(a.lo, b.lo), Max(a.hi, b.hi)))
  }

  /** Two well-formed fragments that pass the merge test cover exactly what
    * their hull covers. */
  lemma {:induction false} HullCovers(a: Frag, b: Frag, shareEnds: bool, v: int)
    requires a.lo <= a.hi && b.lo <= b.hi && Mergeable(a, b, shareEnds)
    ensures Hull(a, b).lo <= Hull(a, b).hi
    ensures Hull(a, b).lo <= v <= Hull(a, b).hi <==> a.lo <= v <= a.hi || b.lo <= v <= b.hi
  {
  }

  /** Replacing fragment i by its hull with fragment j, and removing j. */
  function MergeAt(fs: seq<Frag>, i: nat, j: nat): seq<Frag>
    requires i < j < |fs|
  {
    fs[..i] + [Hull(fs[i], fs[j])] + fs[i + 1..j] + fs[j + 1..]
  }

  lemma {:induction false} WellFormedConcat(a: seq<Frag>, b: seq<Frag>)
    ensures WellFormed(a + b) <==> WellFormed(a) && WellFormed(b)
  {
    assert forall i | 0 <= i < |a| :: (a + b)[i] == a[i];
    assert forall i | 0 <= i < |b| :: (a + b)[|a| + i] == b[i];
  }

  lemma {:induction false} MergeAtCovers(fs: seq<Frag>, i: nat, j: nat, shareEnds: bool)
    requires i < j < |fs| && WellFormed(fs) && Mergeable(fs[i], fs[j], shareEnds)
    ensures WellFormed(MergeAt(fs, i, j)) && SameRows(MergeAt(fs, i, j), fs)
  {
    var a, b, c := fs[..i], fs[i + 1..j], fs[j + 1..];
    var h := Hull(fs[i], fs[j]);
    assert fs == a + [fs[i]] + b + [fs[j]] + c;
    WellFormedConcat(a + [fs[i]] + b + [fs[j]], c);
    WellFormedConcat(a + [fs[i]] + b, [fs[j]]);
    WellFormedConcat(a + [fs[i]], b);
    WellFormedConcat(a, [fs[i]]);
    HullCovers(fs[i], fs[j], shareEnds, 0);
    WellFormedConcat(a + [h] + b, c);
    WellFormedConcat(a + [h], b);
    WellFormedConcat(a, [h]);
    forall v
      ensures Covers(MergeAt(fs, i, j), v) <==> Covers(fs, v)
    {
      HullCovers(fs[i], fs[j], shareEnds, v);
      CoversConcat(a + [fs[i]] + b + [fs[j]], c, v);
      CoversConcat(a + [fs[i]] + b, [fs[j]], v);
      CoversConcat(a + [fs[i]], b, v);
      CoversConcat(a, [fs[i]], v);
      CoversConcat(a + [h] + b, c, v);
      CoversConcat(a + [h], b, v);
      CoversConcat(a, [h], v);
      assert [fs[i]][1..] == [] && [fs[j]][1..] == [] && [h][1..] == [];
    }
  }

  /** The collapse loops of the source on one fragment list. `shareEnds`
    * selects drawvlines' test; floodfill's outer loop runs over the indices
    * of the list as it was before merging (range(len) is taken once), which
    * makes no difference since a turn whose i is past the end of the list
    * has an empty inner loop. */
  method Collapse(fs: seq<Frag>, shareEnds: bool) returns (r: seq<Frag>)
    requires WellFormed(fs)
    ensures WellFormed(r) && SameRows(r, fs) && |r| <= |fs|
    ensures AnyMergeable(fs, shareEnds) <==> |r| < |fs|
    ensures !AnyMergeable(fs, shareEnds) ==> r == fs
  {
    r := fs;
    var n := |fs|;
    var i := 0;
    while if shareEnds then i < |r| else i < n
      invariant WellFormed(r) && SameRows(r, fs) && |r| <= |fs|
      invariant |r| == |fs| ==> r == fs && forall c, d | 0 <= c < i && c < d < |fs| :: !Mergeable(fs[c], fs[d], shareEnds)
      invariant |r| < |fs| ==> AnyMergeable(fs, shareEnds)
      decreases if shareEnds then |r| - i else n - i
    {
      var j := i + 1;
      ghost var r0 := r;
      while j < |r|
        invariant WellFormed(r) && SameRows(r, fs) && |r| <= |r0| && i < j
        invariant |r| == |fs| ==> r == fs && forall c, d | 0 <= c < i && c < d < |fs| :: !Mergeable(fs[c], fs[d], shareEnds)
        invariant |r| == |fs| ==> forall d | i < d < j && d < |fs| :: !Mergeable(fs[i], fs[d], shareEnds)
        invariant |r| < |fs| ==> AnyMergeable(fs, shareEnds)
        decreases |r|, |r| - j
      {
        var a := r[i];
        var b := r[j];
        if Mergeable(a, b, shareEnds) {
          assert AnyMergeable(fs, shareEnds) by {
            if |r| == |fs| {
              assert Mergeable(fs[i], fs[j], shareEnds);
            }
          }
          MergeAtCovers(r, i, j, shareEnds);
          ghost var merged := MergeAt(r, i, j);
          r := r[i := Hull(a, b)];
          r := r[..j] + r[j + 1..];
          assert r == merged;
          j := i + 1;
        } else {
          j := j + 1;
        }
      }
      i := i + 1;
    }
    if !AnyMergeable(fs, shareEnds) {
      assert |r| == |fs|;
    }
  }

  /** Get(m, x): the list of key x, or none. */
  function Get(m: map<int, seq<Frag>>, x: int): seq<Frag>
  {
    if x in m then m[x] else []
  }

  /** The columns after add_vline's loop has handled columns lo..hi, one
    * after the other. */
  function AddedUpTo(m: map<int, seq<Frag>>, y: int, lo: int, hi: int): map<int, seq<Frag>>
    decreases hi - lo
  {
    if hi < lo then m
    else
      var p := AddedUpTo(m, y, lo, hi - 1);
      p[hi := Insert(Get(p, hi), y)]
  }

  /** Handling columns lo..hi adds them to the map and puts row y into each
    * of them, and leaves every other column as it was. */
  lemma {:induction false} AddedUpToSpec(m: map<int, seq<Frag>>, y: int, lo: int, hi: int)
    ensures AddedUpTo(m, y, lo, hi).Keys == m.Keys + Interval(lo, hi)
    ensures forall x | x in AddedUpTo(m, y, lo, hi) ::
              AddedUpTo(m, y, lo, hi)[x] == if lo <= x <= hi then Insert(Get(m, x), y) else m[x]
    decreases hi - lo
  {
    if hi < lo {
      assert Interval(lo, hi) == {};
    } else {
      AddedUpToSpec(m, y, lo, hi - 1);
      IntervalSnoc(lo, hi - 1);
      var p := AddedUpTo(m, y, lo, hi - 1);
      assert Get(p, hi) == Get(m, hi);
    }
  }

  predicate AllWellFormed(m: map<int, seq<Frag>>)
  {
    forall x | x in m :: WellFormed(m[x])
  }

  /** The global vlines of prim.py: for each column x the fragments of rows
    * that the current shape fills there. */
  class VLines {
    var vlines: map<int, seq<Frag>>

    constructor ()
      ensures vlines == map[]
    {
      vlines := map[];
    }

    /** start_shape (prim.py:69-71); end_shape resets it the same way. */
    method StartShape()
      modifies this
      ensures vlines == map[]
    {
      vlines := map[];
    }

    /** add_vline (prim.py:1003-1027): row y joins the fragments of every
      * column xs1..xs2; other columns are unchanged. */
    method AddVline(y: int, xs1: int, xs2: int)
      modifies this
      ensures vlines.Keys == old(vlines).Keys + Interval(xs1, xs2)
      ensures forall x | x in vlines :: vlines[x] == if xs1 <= x <= xs2 then Insert(Get(old(vlines), x), y) else old(vlines)[x]
    {
      var x := xs1;
      while x < xs2 + 1
        invariant xs2 < xs1 ==> x == xs1
        invariant xs1 <= xs2 ==> xs1 <= x <= xs2 + 1
        invariant vlines == AddedUpTo(old(vlines), y, xs1, x - 1)
      {
        AddToColumn(x, y);
        x := x + 1;
      }
      AddedUpToSpec(old(vlines), y, xs1, x - 1);
      assert Interval(xs1, x - 1) == Interval(xs1, xs2);
    }

    /** One turn of add_vline's loop: row y joins column x, which starts
      * with the single fragment y..y when it is new. */
    method AddToColumn(x: int, y: int)
      modifies this
      ensures vlines == old(vlines)[x := Insert(Get(old(vlines), x), y)]
    {
      if x in vlines {
        var fs := AddPoint(vlines[x], y);
        vlines := vlines[x := fs];
      } else {
        vlines := vlines[x := [Frag(y, y)]];
      }
    }

    /** The VERT_FIT merge of drawvlines (prim.py:1226-1244): each column is
      * sorted and its touching fragments collapsed. Every column keeps the
      * rows it covers. */
    method Merge()
      requires AllWellFormed(vlines)
      modifies this
      ensures vlines.Keys == old(vlines).Keys && AllWellFormed(vlines)
      ensures forall x | x in vlines :: ColumnMerged(old(vlines)[x], vlines[x])
    {
      var todo := vlines.Keys;
      while todo != {}
        invariant todo <= vlines.Keys && vlines.Keys == old(vlines).Keys && AllWellFormed(vlines)
        invariant forall x | x in todo :: vlines[x] == old(vlines)[x]
        invariant forall x | x in vlines && x !in todo :: ColumnMerged(old(vlines)[x], vlines[x])
        decreases |todo|
      {
        var x := PickFrom(todo);
        var merged := MergeColumn(vlines[x]);
        vlines := vlines[x := merged];
        todo := todo - {x};
      }
    }
  }

  /** One column of drawvlines' merge: sort, then collapse. */
  method MergeColumn(fs: seq<Frag>) returns (r: seq<Frag>)
    requires WellFormed(fs)
    ensures ColumnMerged(fs, r)
  {
    var sorted := SortFrags(fs);
    forall v
      ensures Covers(sorted, v) <==> Covers(fs, v)
    {
      SortFragsCovers(fs, v);
    }
    SortFragsCovers(fs, 0);
    SortFragsProps(fs);
    assert |sorted| == |fs| by {
      assert |multiset(sorted)| == |multiset(fs)|;
    }
    AnyMergeablePerm(sorted, fs, true);
    r := Collapse(sorted, true);
  }

  /** What the merge of drawvlines promises for one column: the column is
    * sorted, keeps its rows and never grows, and it shrinks exactly when
    * two of its fragments pass the merge test; otherwise it is just the
    * sorted column. */
  ghost predicate ColumnMerged(before: seq<Frag>, after: seq<Frag>)
  {
    WellFormed(after) && SameRows(after, before) && |after| <= |before| &&
    (AnyMergeable(before, true) <==> |after| < |before|) &&
    (!AnyMergeable(before, true) ==> after == SortFrags(before))
  }

  /** After add_vline(y, xs1, xs2) every column xs1..xs2 covers y besides
    * what it covered before. */
  lemma {:induction false} AddVlineCovers(m: map<int, seq<Frag>>, m': map<int, seq<Frag>>, y: int, xs1: int, xs2: int, x: int, w: int)
    requires AllWellFormed(m) && xs1 <= x <= xs2
    requires x in m' && m'[x] == Insert(Get(m, x), y)
    ensures WellFormed(m'[x])
    ensures Covers(m'[x], w) <==> Covers(Get(m, x), w) || w == y
  {
    InsertCovers(Get(m, x), y, w);
  }
}
