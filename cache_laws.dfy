/** Laws of the cache transformations: what they preserve (position order,
    distinct ids) and how they commute with the server's own view of a
    document, `ServerBlocksOf`. */
module CacheLaws {
  import opened Types
  import opened BlockLists
  import opened BlockCache

  /** Filtering keeps position order. */
  lemma {:induction false} FilterKeepsSorted(s: seq<Block>, c: Criterion)
    requires Sorted(s)
    ensures Sorted(Filter(s, c))
  {
    if s != [] {
      assert Sorted(s[1..]);
      FilterKeepsSorted(s[1..], c);
      FilterMembers(s[1..], c);
      var rest := Filter(s[1..], c);
      if Keeps(c, s[0]) {
        forall x | x in rest ensures s[0].position <= x.position {
          var k :| 0 <= k < |s[1..]| && s[1..][k] == x;
          assert s[k + 1] == x;
        }
        SortedCons(s[0], rest);
      }
    }
  }

  /** Filtering keeps ids distinct. */
  lemma {:induction false} FilterKeepsDistinct(s: seq<Block>, c: Criterion)
    requires DistinctIds(s)
    ensures DistinctIds(Filter(s, c))
  {
    if s != [] {
      assert DistinctIds(s[1..]);
      FilterKeepsDistinct(s[1..], c);
      FilterMembers(s[1..], c);
      var rest := Filter(s[1..], c);
      if Keeps(c, s[0]) {
        var r := [s[0]] + rest;
        forall i, j | 0 <= i < j < |r| ensures r[i].id != r[j].id {
          if i == 0 {
            assert r[j] == rest[j - 1] && r[j] in rest;
            var k :| 0 <= k < |s[1..]| && s[1..][k] == r[j];
            assert s[k + 1] == r[j];
          } else {
            assert r[i] == rest[i - 1] && r[j] == rest[j - 1];
          }
        }
      }
    }
  }

  /** Filtering a list whose every block is kept changes nothing. */
  lemma {:induction false} FilterOfAllKept(s: seq<Block>, c: Criterion)
    requires forall k :: 0 <= k < |s| ==> Keeps(c, s[k])
    ensures Filter(s, c) == s
  {
    if s != [] {
      FilterOfAllKept(s[1..], c);
      assert s == [s[0]] + s[1..];
    }
  }

  /** Filtering a list none of whose blocks is kept leaves nothing. */
  lemma {:induction false} FilterOfNoneKept(s: seq<Block>, c: Criterion)
    requires forall x :: x in s ==> !Keeps(c, x)
    ensures Filter(s, c) == []
  {
    if s != [] {
      assert s[0] in s;
      assert forall x :: x in s[1..] ==> x in s;
      FilterOfNoneKept(s[1..], c);
    }
  }

  /** Two filters may be applied in either order. */
  lemma {:induction false} FiltersCommute(s: seq<Block>, c1: Criterion, c2: Criterion)
    ensures Filter(Filter(s, c1), c2) == Filter(Filter(s, c2), c1)
  {
    if s != [] {
      FiltersCommute(s[1..], c1, c2);
      var a, t := s[0], s[1..];
      assert s == [a] + t;
      FilterCons(a, t, c1);
      FilterCons(a, t, c2);
      var f1, f2 := Filter(t, c1), Filter(t, c2);
      FilterCons(a, f1, c2);
      FilterCons(a, f2, c1);
      if Keeps(c1, a) {
        assert Filter(s, c1) == [a] + f1;
      } else {
        assert Filter(s, c1) == f1;
      }
      if Keeps(c2, a) {
        assert Filter(s, c2) == [a] + f2;
      } else {
        assert Filter(s, c2) == f2;
      }
    }
  }

  lemma FilterInsertAtFront(b: Block, s: seq<Block>, c: Criterion)
    requires Sorted(s)
    requires s == [] || b.position <= s[0].position
    ensures Sorted(Filter(s, c))
    ensures Filter(InsertByPosition(b, s), c)
         == if Keeps(c, b) then InsertByPosition(b, Filter(s, c)) else Filter(s, c)
  {
    FilterKeepsSorted(s, c);
    var fs := Filter(s, c);
    FilterMembers(s, c);
    InsertAtFront(b, s);
    FilterCons(b, s, c);
    if Keeps(c, b) {
      if fs != [] {
        assert fs[0] in s;
        var k :| 0 <= k < |s| && s[k] == fs[0];
      }
      InsertAtFront(b, fs);
    }
  }

  lemma {:induction false} FilterInsertPastHead(b: Block, s: seq<Block>, c: Criterion)
    requires Sorted(s)
    requires s != [] && s[0].position < b.position
    ensures Sorted(Filter(s, c))
    ensures Filter(InsertByPosition(b, s), c)
         == if Keeps(c, b) then InsertByPosition(b, Filter(s, c)) else Filter(s, c)
    decreases |s|, 0
  {
    FilterKeepsSorted(s, c);
    var fs := Filter(s, c);
    var a, t := s[0], s[1..];
    assert s == [a] + t;
    InsertPastHead(b, s);
    var rest := InsertByPosition(b, t);
    FilterInsert(b, t, c);
    FilterCons(a, rest, c);
    FilterCons(a, t, c);
    var ft := Filter(t, c);
    if Keeps(c, a) {
      assert fs == [a] + ft;
      if Keeps(c, b) {
        InsertPastKeptHead(a, b, ft);
      }
    } else {
      assert fs == ft;
    }
  }

  /** `b` goes past a head that is before it, stated for a list written as
      head and tail. */
  lemma InsertPastKeptHead(a: Block, b: Block, t: seq<Block>)
    requires Sorted([a] + t) && a.position < b.position
    ensures Sorted(t)
    ensures InsertByPosition(b, [a] + t) == [a] + InsertByPosition(b, t)
  {
    InsertPastHead(b, [a] + t);
    assert ([a] + t)[1..] == t;
  }

  /** Filtering an insertion is inserting into the filtered list. */
  lemma {:induction false} FilterInsert(b: Block, s: seq<Block>, c: Criterion)
    requires Sorted(s)
    ensures Sorted(Filter(s, c))
    ensures Filter(InsertByPosition(b, s), c)
         == if Keeps(c, b) then InsertByPosition(b, Filter(s, c)) else Filter(s, c)
    decreases |s|, 1
  {
    if s == [] || b.position <= s[0].position {
      FilterInsertAtFront(b, s, c);
    } else {
      FilterInsertPastHead(b, s, c);
    }
  }

  /** Sorting and filtering commute. */
  lemma {:induction false} SortFilterCommute(s: seq<Block>, c: Criterion)
    ensures Filter(SortByPosition(s), c) == SortByPosition(Filter(s, c))
  {
    if s != [] {
      var a, t := s[0], s[1..];
      assert s == [a] + t;
      SortFilterCommute(t, c);
      var st := SortByPosition(t);
      assert SortByPosition(s) == InsertByPosition(a, st);
      FilterInsert(a, st, c);
      FilterCons(a, t, c);
      var ft := Filter(t, c);
      if Keeps(c, a) {
        assert Filter(s, c) == [a] + ft;
        assert ([a] + ft)[1..] == ft;
        assert SortByPosition([a] + ft) == InsertByPosition(a, SortByPosition(ft));
      } else {
        assert Filter(s, c) == ft;
      }
    }
  }

  /** Two blocks of a list with distinct ids that share an id are one block. */
  lemma UniqueById(s: seq<Block>, x: Block, y: Block)
    requires DistinctIds(s) && x in s && y in s && x.id == y.id
    ensures x == y
  {
    var i :| 0 <= i < |s| && s[i] == x;
    var j :| 0 <= j < |s| && s[j] == y;
    assert i == j;
  }

  /** A block whose id the tail does not use can go in front. */
  lemma DistinctCons(a: Block, t: seq<Block>)
    requires DistinctIds(t)
    requires forall x :: x in t ==> x.id != a.id
    ensures DistinctIds([a] + t)
  {
    var r := [a] + t;
    forall i, j | 0 <= i < j < |r| ensures r[i].id != r[j].id {
      assert r[j] == t[j - 1] && r[j] in t;
      if i > 0 {
        assert r[i] == t[i - 1];
      }
    }
  }

  /** Inserting a block whose id is unused keeps ids distinct. */
  lemma {:induction false} InsertKeepsDistinct(b: Block, s: seq<Block>)
    requires Sorted(s) && DistinctIds(s)
    requires forall x :: x in s ==> x.id != b.id
    ensures DistinctIds(InsertByPosition(b, s))
  {
    if s == [] || b.position <= s[0].position {
      InsertAtFront(b, s);
      DistinctCons(b, s);
    } else {
      InsertPastHead(b, s);
      var a, t := s[0], s[1..];
      assert s == [a] + t;
      assert DistinctIds(t);
      assert forall x :: x in t ==> x in s;
      InsertKeepsDistinct(b, t);
      var rest := InsertByPosition(b, t);
      forall x | x in rest ensures x.id != a.id {
        if x != b {
          var k :| 0 <= k < |t| && t[k] == x;
          assert s[0].id != s[k + 1].id;
        } else {
          assert a in s;
        }
      }
      DistinctCons(a, rest);
    }
  }

  /** Sorting keeps ids distinct. */
  lemma {:induction false} SortKeepsDistinct(s: seq<Block>)
    requires DistinctIds(s)
    ensures DistinctIds(SortByPosition(s))
  {
    if s != [] {
      var a, t := s[0], s[1..];
      assert s == [a] + t;
      assert DistinctIds(t);
      SortKeepsDistinct(t);
      var st := SortByPosition(t);
      forall x | x in st ensures x.id != a.id {
        assert x in multiset(st);
        assert x in t;
        var k :| 0 <= k < |t| && t[k] == x;
        assert s[0].id != s[k + 1].id;
      }
      InsertKeepsDistinct(a, st);
    }
  }

  /** Appending a block whose id is unused keeps ids distinct. */
  lemma AppendKeepsDistinct(s: seq<Block>, b: Block)
    requires DistinctIds(s) && !HasId(s, b.id)
    ensures DistinctIds(s + [b])
  {
    var r := s + [b];
    forall i, j | 0 <= i < j < |r| ensures r[i].id != r[j].id {
      if j == |s| {
        assert r[i] == s[i];
      } else {
        assert r[i] == s[i] && r[j] == s[j];
      }
    }
  }

  /** A patch changes no id, so ids stay distinct. */
  lemma PatchKeepsDistinct(s: seq<Block>, id: string, p: BlockPatch, now: string)
    requires DistinctIds(s)
    ensures DistinctIds(PatchBlocks(s, id, p, now))
  {
    var r := PatchBlocks(s, id, p, now);
    assert forall i :: 0 <= i < |r| ==> r[i].id == s[i].id;
  }

  /** A patch keeps positions, so it keeps position order. */
  lemma PatchKeepsSorted(s: seq<Block>, id: string, p: BlockPatch, now: string)
    requires Sorted(s)
    ensures Sorted(PatchBlocks(s, id, p, now))
  {
    var r := PatchBlocks(s, id, p, now);
    assert forall i :: 0 <= i < |r| ==> r[i].position == s[i].position;
  }

  /** The in-place branch of an upsert does not re-sort; the list stays in
      position order when the new row keeps the position of the entry it
      replaces, as every row the store returns for an update does. */
  lemma UpsertKeepsSorted(current: seq<Block>, b: Block)
    requires Sorted(current)
    requires HasId(current, b.id) ==> current[IndexOfId(current, b.id)].position == b.position
    ensures Sorted(UpsertList(current, b))
  {
    var r := UpsertList(current, b);
    assert forall i :: 0 <= i < |current| && HasId(current, b.id) ==> r[i].position == current[i].position;
  }

  /** A replacement that moves the row breaks the order: the in-place branch
      keeps the list as it is apart from the one entry. */
  lemma UpsertInPlaceDoesNotResort(a: Block, c: Block)
    requires a.id != c.id && a.position < c.position
    ensures
      var moved := c.(position := a.position - 1);
      UpsertList([a, c], moved) == [a, moved] && !Sorted(UpsertList([a, c], moved))
  {
    var moved := c.(position := a.position - 1);
    assert HasId([a, c], c.id) by { assert [a, c][1].id == c.id; }
    assert IndexOfId([a, c], c.id) == 1;
  }

  /** Patching an id no block has changes nothing. */
  lemma PatchOfAbsentId(s: seq<Block>, id: string, p: BlockPatch, now: string)
    requires !HasId(s, id)
    ensures PatchBlocks(s, id, p, now) == s
  {
    var r := PatchBlocks(s, id, p, now);
    assert forall i :: 0 <= i < |s| ==> s[i].id != id;
  }

  lemma PatchCons(a: Block, t: seq<Block>, id: string, p: BlockPatch, now: string)
    ensures PatchBlocks([a] + t, id, p, now)
         == [if a.id == id then ApplyBlockPatch(a, p, now) else a] + PatchBlocks(t, id, p, now)
  {
    assert ([a] + t)[1..] == t;
  }

  /** A patch neither moves a block to another document nor changes its id,
      so it commutes with every filter. */
  lemma {:induction false} PatchFilterCommute(s: seq<Block>, id: string, p: BlockPatch, now: string, c: Criterion)
    ensures Filter(PatchBlocks(s, id, p, now), c) == PatchBlocks(Filter(s, c), id, p, now)
  {
    if s != [] {
      var a, t := s[0], s[1..];
      assert s == [a] + t;
      PatchFilterCommute(t, id, p, now, c);
      var a' := if a.id == id then ApplyBlockPatch(a, p, now) else a;
      assert Keeps(c, a') == Keeps(c, a);
      var pt := PatchBlocks(t, id, p, now);
      PatchCons(a, t, id, p, now);
      assert PatchBlocks(s, id, p, now) == [a'] + pt;
      FilterCons(a', pt, c);
      FilterCons(a, t, c);
      var ft := Filter(t, c);
      if Keeps(c, a) {
        assert Filter(s, c) == [a] + ft;
        PatchCons(a, ft, id, p, now);
        assert Filter([a'] + pt, c) == [a'] + Filter(pt, c);
      } else {
        assert Filter(s, c) == ft;
        assert Filter([a'] + pt, c) == Filter(pt, c);
      }
    }
  }

  lemma {:induction false} PatchInsertPastHead(b: Block, s: seq<Block>, id: string, p: BlockPatch, now: string)
    requires Sorted(s)
    requires s != [] && s[0].position < b.position
    ensures Sorted(PatchBlocks(s, id, p, now))
    ensures PatchBlocks(InsertByPosition(b, s), id, p, now)
         == InsertByPosition(if b.id == id then ApplyBlockPatch(b, p, now) else b, PatchBlocks(s, id, p, now))
    decreases |s|, 0
  {
    PatchKeepsSorted(s, id, p, now);
    var b' := if b.id == id then ApplyBlockPatch(b, p, now) else b;
    var ps := PatchBlocks(s, id, p, now);
    var a, t := s[0], s[1..];
    assert s == [a] + t;
    InsertPastHead(b, s);
    var rest := InsertByPosition(b, t);
    PatchInsertCommute(b, t, id, p, now);
    PatchCons(a, rest, id, p, now);
    PatchCons(a, t, id, p, now);
    var a' := if a.id == id then ApplyBlockPatch(a, p, now) else a;
    var pt := PatchBlocks(t, id, p, now);
    assert ps == [a'] + pt;
    assert a'.position == a.position;
    InsertPastHead(b', ps);
    assert ps[1..] == pt;
  }

  /** A patch keeps positions, so it commutes with inserting by position. */
  lemma {:induction false} PatchInsertCommute(b: Block, s: seq<Block>, id: string, p: BlockPatch, now: string)
    requires Sorted(s)
    ensures Sorted(PatchBlocks(s, id, p, now))
    ensures PatchBlocks(InsertByPosition(b, s), id, p, now)
         == InsertByPosition(if b.id == id then ApplyBlockPatch(b, p, now) else b, PatchBlocks(s, id, p, now))
    decreases |s|, 1
  {
    PatchKeepsSorted(s, id, p, now);
    var b' := if b.id == id then ApplyBlockPatch(b, p, now) else b;
    var ps := PatchBlocks(s, id, p, now);
    if s == [] || b.position <= s[0].position {
      InsertAtFront(b, s);
      PatchCons(b, s, id, p, now);
      assert ps != [] ==> ps[0].position == s[0].position;
      InsertAtFront(b', ps);
    } else {
      PatchInsertPastHead(b, s, id, p, now);
    }
  }

  /** Sorting and patching commute. */
  lemma {:induction false} SortPatchCommute(s: seq<Block>, id: string, p: BlockPatch, now: string)
    ensures PatchBlocks(SortByPosition(s), id, p, now) == SortByPosition(PatchBlocks(s, id, p, now))
  {
    if s != [] {
      var a, t := s[0], s[1..];
      assert s == [a] + t;
      SortPatchCommute(t, id, p, now);
      var st := SortByPosition(t);
      assert SortByPosition(s) == InsertByPosition(a, st);
      PatchInsertCommute(a, st, id, p, now);
      PatchCons(a, t, id, p, now);
      var a' := if a.id == id then ApplyBlockPatch(a, p, now) else a;
      var pt := PatchBlocks(t, id, p, now);
      assert PatchBlocks(s, id, p, now) == [a'] + pt;
      assert ([a'] + pt)[1..] == pt;
      assert SortByPosition([a'] + pt) == InsertByPosition(a', SortByPosition(pt));
    }
  }

  // ---- the document list ----

  /** Removing a document id works element by element: it distributes over
      concatenation, so the remaining documents keep their order. */
  lemma {:induction false} RemoveDocumentIdAppend(a: seq<Document>, b: seq<Document>, id: string)
    ensures RemoveDocumentId(a + b, id) == RemoveDocumentId(a, id) + RemoveDocumentId(b, id)
  {
    if a == [] {
      assert a + b == b;
    } else {
      assert (a + b)[0] == a[0] && (a + b)[1..] == a[1..] + b;
      RemoveDocumentIdAppend(a[1..], b, id);
    }
  }

  /** After a run of documents with the removed id, the first one with
      another id heads what remains: the one the dashboard selects next. */
  lemma RemoveDocumentIdAfterRun(docs: seq<Document>, k: int, id: string)
    requires 0 <= k < |docs| && docs[k].id != id
    requires forall j :: 0 <= j < k ==> docs[j].id == id
    ensures RemoveDocumentId(docs, id) == [docs[k]] + RemoveDocumentId(docs[k + 1..], id)
  {
    assert docs == docs[..k] + docs[k..];
    RemoveDocumentIdAppend(docs[..k], docs[k..], id);
    RemoveDocumentIdEmpty(docs[..k], id);
    assert docs[k..][1..] == docs[k + 1..];
  }

  /** Nothing remains exactly when every document has the removed id. */
  lemma RemoveDocumentIdEmpty(docs: seq<Document>, id: string)
    ensures RemoveDocumentId(docs, id) == [] <==> forall k :: 0 <= k < |docs| ==> docs[k].id == id
  {
    if RemoveDocumentId(docs, id) != [] {
      var x := RemoveDocumentId(docs, id)[0];
      assert x in docs;
    }
  }

  /** A fresh id appended keeps the document ids distinct. */
  lemma AppendDocumentKeepsDistinct(docs: seq<Document>, row: Document)
    requires DocumentIdsDistinct(docs) && !HasDocument(docs, row.id)
    ensures DocumentIdsDistinct(docs + [row])
  {
    var s := docs + [row];
    forall i, j | 0 <= i < j < |s| ensures s[i].id != s[j].id {
      if j == |docs| {
        assert s[i] == docs[i];
      }
    }
  }

  /** Removing documents keeps the remaining ids distinct. */
  lemma {:induction false} RemoveDocumentKeepsDistinct(docs: seq<Document>, id: string)
    requires DocumentIdsDistinct(docs)
    ensures DocumentIdsDistinct(RemoveDocumentId(docs, id))
  {
    if docs != [] {
      var t := docs[1..];
      assert DocumentIdsDistinct(t) by {
        assert forall i :: 0 <= i < |t| ==> t[i] == docs[i + 1];
      }
      RemoveDocumentKeepsDistinct(t, id);
      var rest := RemoveDocumentId(t, id);
      if docs[0].id != id {
        var s := [docs[0]] + rest;
        forall i, j | 0 <= i < j < |s| ensures s[i].id != s[j].id {
          if i == 0 {
            assert s[j] == rest[j - 1] && rest[j - 1] in t;
            var k :| 0 <= k < |t| && t[k] == rest[j - 1];
            assert docs[k + 1] == t[k];
          } else {
            assert s[i] == rest[i - 1] && s[j] == rest[j - 1];
          }
        }
      }
    }
  }

  /** A title or icon change keeps the document ids distinct. */
  lemma UpdateDocumentsKeepsDistinct(docs: seq<Document>, id: string, p: DocumentPatch, now: string)
    requires DocumentIdsDistinct(docs)
    ensures DocumentIdsDistinct(UpdateDocuments(docs, id, p, now))
  {
    var r := UpdateDocuments(docs, id, p, now);
    forall i, j | 0 <= i < j < |r| ensures r[i].id != r[j].id {
      assert r[i].id == docs[i].id && r[j].id == docs[j].id;
    }
  }

  /** With distinct ids, the find returns the one document with that id. */
  lemma FindDocumentOfDistinct(docs: seq<Document>, x: Document)
    requires DocumentIdsDistinct(docs) && x in docs
    ensures FindDocument(docs, x.id) == Some(x)
  {
    var i :| 0 <= i < |docs| && docs[i] == x;
    var y := FindDocument(docs, x.id).value;
    var k :| 0 <= k < |docs| && docs[k] == y && forall j :: 0 <= j < k ==> docs[j].id != x.id;
    assert !(i < k) && !(k < i);
  }
}
