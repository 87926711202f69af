/** Lists of blocks: the stable sort by `position` that the dashboard and
    the document editor apply with the comparator `a.position - b.position`,
    and filtering. */
module BlockLists {
  import opened Types

  /** Ascending by position (ties allowed). */
  predicate Sorted(s: seq<Block>) {
    forall i, j :: 0 <= i < j < |s| ==> s[i].position <= s[j].position
  }

  /** Every block of `s` is at position `p` or later. */
  predicate NoneBefore(s: seq<Block>, p: int) {
    forall x :: x in s ==> p <= x.position
  }

  lemma SortedCons(a: Block, t: seq<Block>)
    requires Sorted(t) && NoneBefore(t, a.position)
    ensures Sorted([a] + t)
  {
    var s := [a] + t;
    forall i, j | 0 <= i < j < |s| ensures s[i].position <= s[j].position {
      if i == 0 {
        assert s[j] == t[j - 1];
        assert s[j] in t;
      } else {
        assert s[i] == t[i - 1] && s[j] == t[j - 1];
      }
    }
  }

  /** The tail of a sorted list is sorted. */
  lemma SortedTail(s: seq<Block>)
    requires Sorted(s) && s != []
    ensures Sorted(s[1..])
  {
    var t := s[1..];
    forall i, j | 0 <= i < j < |t| ensures t[i].position <= t[j].position {
      assert t[i] == s[i + 1] && t[j] == s[j + 1];
    }
  }

  /** A sorted list whose head is not before `p` has nothing before `p`. */
  lemma SortedNoneBefore(s: seq<Block>, p: int)
    requires Sorted(s) && (s == [] || p <= s[0].position)
    ensures NoneBefore(s, p)
  {
    forall x | x in s ensures p <= x.position {
      var k :| 0 <= k < |s| && s[k] == x;
    }
  }

  /** The head of a sorted list stays in front of a sorted list built from
      its tail and a later block. */
  lemma SortedPastHead(a: Block, t: seq<Block>, b: Block, rest: seq<Block>)
    requires Sorted([a] + t) && a.position < b.position && Sorted(rest)
    requires forall x :: x in rest ==> x in t || x == b
    ensures Sorted([a] + rest)
  {
    forall x | x in rest ensures a.position <= x.position {
      if x != b {
        var k :| 0 <= k < |t| && t[k] == x;
        var s := [a] + t;
        assert s[0] == a && s[k + 1] == x;
        assert s[0].position <= s[k + 1].position;
      }
    }
    SortedCons(a, rest);
  }

  /** Inserts `b` into a sorted list in front of the first block whose
      position is not smaller, so that `b` precedes its equals. */
  function InsertByPosition(b: Block, s: seq<Block>): (r: seq<Block>)
    requires Sorted(s)
    ensures Sorted(r)
    ensures multiset(r) == multiset(s) + multiset{b}
    ensures forall x :: x in r ==> x in s || x == b
  {
    if s == [] || b.position <= s[0].position then
      SortedNoneBefore(s, b.position);
      SortedCons(b, s);
      [b] + s
    else
      assert s == [s[0]] + s[1..];
      SortedTail(s);
      var rest := InsertByPosition(b, s[1..]);
      SortedPastHead(s[0], s[1..], b, rest);
      [s[0]] + rest
  }

  /** `b` goes to the front of a sorted list whose head is not before it. */
  lemma InsertAtFront(b: Block, s: seq<Block>)
    requires Sorted(s)
    requires s == [] || b.position <= s[0].position
    ensures InsertByPosition(b, s) == [b] + s
  {
  }

  /** `b` goes past a head that is before it. */
  lemma InsertPastHead(b: Block, s: seq<Block>)
    requires Sorted(s)
    requires s != [] && s[0].position < b.position
    ensures Sorted(s[1..])
    ensures InsertByPosition(b, s) == [s[0]] + InsertByPosition(b, s[1..])
  {
    assert Sorted(s[1..]);
  }

  /** `[...s].sort((a, b) => a.position - b.position)`: a stable sort, as
      `Array.prototype.sort` is. */
  function SortByPosition(s: seq<Block>): (r: seq<Block>)
    ensures Sorted(r)
    ensures multiset(r) == multiset(s)
    ensures |r| == |s|
  {
    if s == [] then []
    else
      assert s == [s[0]] + s[1..];
      InsertByPosition(s[0], SortByPosition(s[1..]))
  }

  /** The predicates blocks are filtered by: by the dashboard, by the remote
      store, and by position when reasoning about ties. */
  datatype Criterion =
    IdIsNot(id: string) | DocumentIs(doc: string) | DocumentIsNot(doc: string) | PositionIs(position: int)

  predicate Keeps(c: Criterion, b: Block) {
    match c
    case IdIsNot(id) => b.id != id
    case DocumentIs(d) => b.documentId == d
    case DocumentIsNot(d) => b.documentId != d
    case PositionIs(p) => b.position == p
  }

  /** `s.filter(block => Keeps(c, block))`: the kept blocks, in their order. */
  function Filter(s: seq<Block>, c: Criterion): (r: seq<Block>)
    ensures |r| <= |s|
  {
    if s == [] then []
    else (if Keeps(c, s[0]) then [s[0]] else []) + Filter(s[1..], c)
  }

  /** The kept blocks are exactly the blocks of `s` that `c` keeps. */
  lemma {:induction false} FilterMembers(s: seq<Block>, c: Criterion)
    ensures forall x :: x in Filter(s, c) <==> x in s && Keeps(c, x)
  {
    if s != [] {
      FilterMembers(s[1..], c);
      assert s == [s[0]] + s[1..];
    }
  }

  lemma FilterCons(a: Block, t: seq<Block>, c: Criterion)
    ensures Filter([a] + t, c) == (if Keeps(c, a) then [a] else []) + Filter(t, c)
  {
    assert ([a] + t)[1..] == t;
  }

  lemma FilterOfEmpty(c: Criterion)
    ensures Filter([], c) == []
  {
  }

  lemma FilterAppendStep(x: Block, t: seq<Block>, b: seq<Block>, c: Criterion)
    requires Filter(t + b, c) == Filter(t, c) + Filter(b, c)
    ensures Filter([x] + t + b, c) == Filter([x] + t, c) + Filter(b, c)
  {
    var k := if Keeps(c, x) then [x] else [];
    var ft, fb := Filter(t, c), Filter(b, c);
    assert [x] + t + b == [x] + (t + b);
    FilterCons(x, t + b, c);
    FilterCons(x, t, c);
    assert k + (ft + fb) == (k + ft) + fb;
  }

  /** Filtering distributes over concatenation. */
  lemma {:induction false} FilterAppend(a: seq<Block>, b: seq<Block>, c: Criterion)
    ensures Filter(a + b, c) == Filter(a, c) + Filter(b, c)
  {
    if a == [] {
      assert a + b == b;
      FilterOfEmpty(c);
    } else {
      FilterAppend(a[1..], b, c);
      FilterAppendStep(a[0], a[1..], b, c);
      assert a == [a[0]] + a[1..];
    }
  }

  /** The blocks of `s` at position `p`, in their order in `s`. */
  function AtPosition(s: seq<Block>, p: int): (r: seq<Block>)
    ensures forall x :: x in r ==> x in s && x.position == p
  {
    FilterMembers(s, PositionIs(p));
    Filter(s, PositionIs(p))
  }

  lemma AtPositionCons(a: Block, t: seq<Block>, p: int)
    ensures AtPosition([a] + t, p) == (if a.position == p then [a] else []) + AtPosition(t, p)
  {
    FilterCons(a, t, PositionIs(p));
  }

  /** A head before `b`'s position is not among `b`'s ties. */
  lemma AtPositionPastHead(h: Block, rest: seq<Block>, t: seq<Block>, b: Block, p: int)
    requires h.position < b.position
    requires AtPosition(rest, p) == (if b.position == p then [b] else []) + AtPosition(t, p)
    ensures AtPosition([h] + rest, p) == (if b.position == p then [b] else []) + AtPosition([h] + t, p)
  {
    AtPositionCons(h, rest, p);
    AtPositionCons(h, t, p);
    if b.position == p {
      assert h.position != p;
    }
  }

  lemma {:induction false} InsertAtPosition(b: Block, s: seq<Block>, p: int)
    requires Sorted(s)
    ensures AtPosition(InsertByPosition(b, s), p)
         == (if b.position == p then [b] else []) + AtPosition(s, p)
  {
    if s == [] || b.position <= s[0].position {
      InsertAtFront(b, s);
      AtPositionCons(b, s, p);
    } else {
      InsertPastHead(b, s);
      InsertAtPosition(b, s[1..], p);
      assert s == [s[0]] + s[1..];
      AtPositionPastHead(s[0], InsertByPosition(b, s[1..]), s[1..], b, p);
    }
  }

  /** Stability: the blocks sharing one position keep their input order. */
  lemma {:induction false} SortIsStable(s: seq<Block>, p: int)
    ensures AtPosition(SortByPosition(s), p) == AtPosition(s, p)
  {
    if s != [] {
      SortIsStable(s[1..], p);
      InsertAtPosition(s[0], SortByPosition(s[1..]), p);
    }
  }

  /** A list that is already in position order is returned unchanged. */
  lemma {:induction false} SortOfSortedIsIdentity(s: seq<Block>)
    requires Sorted(s)
    ensures SortByPosition(s) == s
  {
    if s != [] {
      assert Sorted(s[1..]);
      SortOfSortedIsIdentity(s[1..]);
      assert s == [s[0]] + s[1..];
    }
  }

  /** Sorting twice is sorting once. */
  lemma SortIsIdempotent(s: seq<Block>)
    ensures SortByPosition(SortByPosition(s)) == SortByPosition(s)
  {
    SortOfSortedIsIdentity(SortByPosition(s));
  }

  /** Some block of `s` is at position `p`. */
  lemma AtPositionOfMember(s: seq<Block>, k: nat)
    requires k < |s|
    ensures AtPosition(s, s[k].position) != []
  {
    assert s[k] in s;
    FilterMembers(s, PositionIs(s[k].position));
    assert s[k] in AtPosition(s, s[k].position);
  }

  /** Heads of two nonempty sorted lists with the same ties are at the same
      position, and the tails have the same ties. */
  lemma SameTiesStep(a: seq<Block>, b: seq<Block>)
    requires Sorted(a) && Sorted(b) && a != [] && b != []
    requires forall p :: AtPosition(a, p) == AtPosition(b, p)
    ensures a[0] == b[0]
    ensures forall p :: AtPosition(a[1..], p) == AtPosition(b[1..], p)
  {
    var a0, a', b0, b' := a[0], a[1..], b[0], b[1..];
    assert a == [a0] + a' && b == [b0] + b';
    AtPositionCons(a0, a', a0.position);
    AtPositionCons(b0, b', b0.position);
    assert a0 in AtPosition(b, a0.position);
    assert b0 in AtPosition(a, b0.position);
    var i :| 0 <= i < |b| && b[i] == a0;
    var j :| 0 <= j < |a| && a[j] == b0;
    assert a0.position == b0.position;
    var q := a0.position;
    assert [a0] + AtPosition(a', q) == [b0] + AtPosition(b', q);
    assert ([a0] + AtPosition(a', q))[0] == a0;
    assert ([a0] + AtPosition(a', q))[1..] == AtPosition(a', q);
    assert ([b0] + AtPosition(b', q))[1..] == AtPosition(b', q);
    forall p ensures AtPosition(a', p) == AtPosition(b', p) {
      assert AtPosition(a, p) == AtPosition(b, p);
      if p != q {
        AtPositionCons(a0, a', p);
        AtPositionCons(b0, b', p);
        assert AtPosition(a, p) == AtPosition(a', p);
        assert AtPosition(b, p) == AtPosition(b', p);
      }
    }
  }

  /** A sorted list is determined by its blocks at each position, in order:
      so two stable sorts of lists with the same ties agree. */
  lemma {:induction false} SortedDeterminedByTies(a: seq<Block>, b: seq<Block>)
    requires Sorted(a) && Sorted(b)
    requires forall p :: AtPosition(a, p) == AtPosition(b, p)
    ensures a == b
  {
    if a != [] && b == [] {
      AtPositionOfMember(a, 0);
    } else if a == [] && b != [] {
      AtPositionOfMember(b, 0);
    } else if a != [] {
      SameTiesStep(a, b);
      assert Sorted(a[1..]) && Sorted(b[1..]);
      SortedDeterminedByTies(a[1..], b[1..]);
      assert a == [a[0]] + a[1..] && b == [b[0]] + b[1..];
    }
  }

  /** Sorting a list that starts with a sorted part gives what sorting the
      unsorted whole gives. */
  lemma SortIgnoresPresorting(a: seq<Block>, b: seq<Block>)
    ensures SortByPosition(SortByPosition(a) + b) == SortByPosition(a + b)
  {
    var l, r := SortByPosition(SortByPosition(a) + b), SortByPosition(a + b);
    forall p ensures AtPosition(l, p) == AtPosition(r, p) {
      SortIsStable(SortByPosition(a) + b, p);
      SortIsStable(a + b, p);
      SortIsStable(a, p);
      FilterAppend(SortByPosition(a), b, PositionIs(p));
      FilterAppend(a, b, PositionIs(p));
    }
    SortedDeterminedByTies(l, r);
  }
}
