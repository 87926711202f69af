/** The block cache against the store it mirrors. An entry "matches" when
    it is exactly what a fetch of that document would return now; these
    lemmas show which handler steps keep every entry matching, by recomputing
    the store's view of each document after the store's own row change. */
module CacheSync {
  import opened Types
  import opened BlockLists
  import opened BlockCache
  import opened CacheLaws

  /** Every cached entry equals the store's position-ordered list for that
      document. */
  predicate CacheMatches(m: BlocksMap, rows: seq<Block>) {
    forall d :: d in m ==> m[d] == ServerBlocksOf(rows, d)
  }

  /** A fetched list is in position order and has distinct ids. */
  lemma ServerBlocksWellFormed(rows: seq<Block>, d: string)
    requires DistinctIds(rows)
    ensures Sorted(ServerBlocksOf(rows, d))
    ensures DistinctIds(ServerBlocksOf(rows, d))
  {
    FilterKeepsDistinct(rows, DocumentIs(d));
    SortKeepsDistinct(BlocksOfDocument(rows, d));
  }

  /** In a matching cache every list is sorted by position and free of
      duplicate ids. */
  lemma MatchingCacheIsWellFormed(m: BlocksMap, rows: seq<Block>, d: string)
    requires DistinctIds(rows) && CacheMatches(m, rows) && d in m
    ensures Sorted(m[d]) && DistinctIds(m[d])
  {
    ServerBlocksWellFormed(rows, d);
  }

  /** A document no row belongs to has an empty list. */
  lemma ServerOfUnusedDocument(rows: seq<Block>, d: string)
    requires forall b :: b in rows ==> b.documentId != d
    ensures ServerBlocksOf(rows, d) == []
  {
    var mine := BlocksOfDocument(rows, d);
    FilterOfNoneKept(rows, DocumentIs(d));
    assert SortByPosition(mine) == [];
  }

  // ---- the store's view after each row change ----

  /** Deleting a row by id, seen through one document. */
  lemma ServerAfterRemove(rows: seq<Block>, id: string, d: string)
    ensures ServerBlocksOf(RemoveBlockId(rows, id), d) == RemoveBlockId(ServerBlocksOf(rows, d), id)
  {
    FiltersCommute(rows, IdIsNot(id), DocumentIs(d));
    SortFilterCommute(BlocksOfDocument(rows, d), IdIsNot(id));
  }

  /** Patching a row by id, seen through one document. */
  lemma ServerAfterPatch(rows: seq<Block>, id: string, p: BlockPatch, now: string, d: string)
    ensures ServerBlocksOf(PatchBlocks(rows, id, p, now), d) == PatchBlocks(ServerBlocksOf(rows, d), id, p, now)
  {
    PatchFilterCommute(rows, id, p, now, DocumentIs(d));
    SortPatchCommute(BlocksOfDocument(rows, d), id, p, now);
  }

  /** Appending a row, seen through one document: its own document's list
      gains it in position order; the others do not change. */
  lemma ServerAfterAppend(rows: seq<Block>, b: Block, d: string)
    ensures ServerBlocksOf(rows + [b], d)
         == if b.documentId == d then AppendSorted(ServerBlocksOf(rows, d), b) else ServerBlocksOf(rows, d)
  {
    var mine := BlocksOfDocument(rows, d);
    FilterAppend(rows, [b], DocumentIs(d));
    FilterCons(b, [], DocumentIs(d));
    assert [b] + [] == [b];
    FilterOfEmpty(DocumentIs(d));
    if b.documentId == d {
      assert BlocksOfDocument(rows + [b], d) == mine + [b];
      SortIgnoresPresorting(mine, [b]);
    } else {
      assert BlocksOfDocument(rows + [b], d) == mine + [];
      assert mine + [] == mine;
    }
  }

  /** The cascade of a document delete, seen through another document. */
  lemma ServerAfterDocumentDelete(rows: seq<Block>, id: string, d: string)
    requires d != id
    ensures ServerBlocksOf(BlocksNotOfDocument(rows, id), d) == ServerBlocksOf(rows, d)
  {
    var mine := BlocksOfDocument(rows, d);
    FiltersCommute(rows, DocumentIsNot(id), DocumentIs(d));
    assert forall k :: 0 <= k < |mine| ==> mine[k] in mine;
    FilterOfAllKept(mine, DocumentIsNot(id));
  }

  // ---- handler steps ----

  /** A fetch makes its entry match and leaves the others as they were. */
  lemma FetchKeepsMatch(m: BlocksMap, rows: seq<Block>, d: string)
    requires forall e :: e in m && e != d ==> m[e] == ServerBlocksOf(rows, e)
    ensures CacheMatches(m[d := ServerBlocksOf(rows, d)], rows)
  {
  }

  /** A failed write that changed entry `d` locally, followed by a successful
      re-fetch of `d`, leaves the cache matching the unchanged rows. */
  lemma RefetchKeepsMatch(m: BlocksMap, rows: seq<Block>, d: string, local: seq<Block>)
    requires CacheMatches(m, rows)
    ensures CacheMatches(m[d := local][d := ServerBlocksOf(rows, d)], rows)
  {
    FetchKeepsMatch(m[d := local], rows, d);
  }

  /** Deleting a row of another document leaves a document's list as it was. */
  lemma RemoveFromOtherDocument(rows: seq<Block>, id: string, e: string)
    requires forall b :: b in rows && b.id == id ==> b.documentId != e
    ensures ServerBlocksOf(RemoveBlockId(rows, id), e) == ServerBlocksOf(rows, e)
  {
    ServerAfterRemove(rows, id, e);
    var theirs := ServerBlocksOf(rows, e);
    assert forall k :: 0 <= k < |theirs| ==> theirs[k] in theirs;
    FilterOfAllKept(theirs, IdIsNot(id));
  }

  /** The optimistic delete of block `id` from document `d`'s list, followed
      by the store's delete of the row, keeps the cache matching when the
      block belongs to `d`. */
  lemma DeleteBlockKeepsMatch(m: BlocksMap, rows: seq<Block>, d: string, id: string)
    requires CacheMatches(m, rows) && d in m
    requires forall b :: b in rows && b.id == id ==> b.documentId == d
    ensures CacheMatches(m[d := RemoveBlockId(m[d], id)], RemoveBlockId(rows, id))
  {
    var m' := m[d := RemoveBlockId(m[d], id)];
    forall e | e in m' ensures m'[e] == ServerBlocksOf(RemoveBlockId(rows, id), e) {
      if e == d {
        ServerAfterRemove(rows, id, e);
      } else {
        RemoveFromOtherDocument(rows, id, e);
      }
    }
  }

  /** Replacing the patched block of a list in place gives the list the
      store's patch produces, whatever `L1` did to that one block before. */
  lemma ReplaceIsPatch(L: seq<Block>, L1: seq<Block>, id: string, row: Block, p: BlockPatch, now: string)
    requires DistinctIds(L) && HasId(L, id)
    requires |L1| == |L|
    requires forall i :: 0 <= i < |L| ==> L1[i].id == L[i].id
    requires forall i :: 0 <= i < |L| && L[i].id != id ==> L1[i] == L[i]
    requires row == ApplyBlockPatch(L[IndexOfId(L, id)], p, now)
    ensures UpsertList(L1, row) == PatchBlocks(L, id, p, now)
  {
    var k := IndexOfId(L, id);
    assert HasId(L1, id) by {
      assert L1[k].id == id;
    }
    assert IndexOfId(L1, id) == k;
    var r := UpsertList(L1, row);
    var q := PatchBlocks(L, id, p, now);
    forall i | 0 <= i < |q| ensures r[i] == q[i] {
      if i != k {
        assert L[i].id != L[k].id;
      }
    }
  }

  /** Patching a row of another document leaves a document's list as it was. */
  lemma PatchOfOtherDocument(rows: seq<Block>, x: Block, p: BlockPatch, now: string, e: string)
    requires DistinctIds(rows) && x in rows && x.documentId != e
    ensures PatchBlocks(ServerBlocksOf(rows, e), x.id, p, now) == ServerBlocksOf(rows, e)
  {
    var L := ServerBlocksOf(rows, e);
    assert !HasId(L, x.id) by {
      if HasId(L, x.id) {
        var k :| 0 <= k < |L| && L[k].id == x.id;
        assert L[k] in L;
        UniqueById(rows, L[k], x);
      }
    }
    PatchOfAbsentId(L, x.id, p, now);
  }

  /** The block's own document: upserting the store's row into its list,
      whether or not the optimistic merge touched that list first, gives the
      store's list. */
  lemma UpsertIntoHomeDocument(rows: seq<Block>, x: Block, p: BlockPatch, now: string, L1: seq<Block>)
    requires DistinctIds(rows) && x in rows
    requires |L1| == |ServerBlocksOf(rows, x.documentId)|
    requires forall i :: 0 <= i < |L1| ==> L1[i].id == ServerBlocksOf(rows, x.documentId)[i].id
    requires forall i :: 0 <= i < |L1| && ServerBlocksOf(rows, x.documentId)[i].id != x.id ==>
               L1[i] == ServerBlocksOf(rows, x.documentId)[i]
    ensures UpsertList(L1, ApplyBlockPatch(x, p, now)) == PatchBlocks(ServerBlocksOf(rows, x.documentId), x.id, p, now)
  {
    var L := ServerBlocksOf(rows, x.documentId);
    ServerBlocksWellFormed(rows, x.documentId);
    assert x in L;
    var k :| 0 <= k < |L| && L[k] == x;
    assert HasId(L, x.id);
    UniqueById(rows, L[IndexOfId(L, x.id)], x);
    ReplaceIsPatch(L, L1, x.id, ApplyBlockPatch(x, p, now), p, now);
  }

  /** The block's own document through a block update, when it is the
      selected one: the upsert overwrites the optimistic merge. */
  lemma HomeEntryAfterMerge(rows: seq<Block>, x: Block, p: BlockPatch, localNow: string, remoteNow: string)
    requires DistinctIds(rows) && x in rows
    ensures UpsertList(PatchBlocks(ServerBlocksOf(rows, x.documentId), x.id, p, localNow), ApplyBlockPatch(x, p, remoteNow))
         == ServerBlocksOf(PatchBlocks(rows, x.id, p, remoteNow), x.documentId)
  {
    var L := ServerBlocksOf(rows, x.documentId);
    var L1 := PatchBlocks(L, x.id, p, localNow);
    PatchKeepsIds(L, x.id, p, localNow);
    ServerAfterPatch(rows, x.id, p, remoteNow, x.documentId);
    UpsertIntoHomeDocument(rows, x, p, remoteNow, L1);
  }

  /** A patch keeps every id in place and every other block as it was. */
  lemma PatchKeepsIds(L: seq<Block>, id: string, p: BlockPatch, now: string)
    ensures |PatchBlocks(L, id, p, now)| == |L|
    ensures forall i :: 0 <= i < |L| ==> PatchBlocks(L, id, p, now)[i].id == L[i].id
    ensures forall i :: 0 <= i < |L| && L[i].id != id ==> PatchBlocks(L, id, p, now)[i] == L[i]
  {
    var L1 := PatchBlocks(L, id, p, now);
    forall i | 0 <= i < |L| ensures L1[i].id == L[i].id {
    }
  }

  /** The block's own document through a block update, when another document
      is selected: the upsert alone brings it up to date. */
  lemma HomeEntryWithoutMerge(rows: seq<Block>, x: Block, p: BlockPatch, remoteNow: string)
    requires DistinctIds(rows) && x in rows
    ensures UpsertList(ServerBlocksOf(rows, x.documentId), ApplyBlockPatch(x, p, remoteNow))
         == ServerBlocksOf(PatchBlocks(rows, x.id, p, remoteNow), x.documentId)
  {
    ServerAfterPatch(rows, x.id, p, remoteNow, x.documentId);
    UpsertIntoHomeDocument(rows, x, p, remoteNow, ServerBlocksOf(rows, x.documentId));
  }

  /** Any other document through a block update. */
  lemma UpdateOtherEntry(rows: seq<Block>, x: Block, p: BlockPatch, localNow: string, remoteNow: string,
                         d: string, e: string, after: seq<Block>)
    requires DistinctIds(rows) && x in rows && e != x.documentId
    requires after == if e == d then PatchBlocks(ServerBlocksOf(rows, e), x.id, p, localNow) else ServerBlocksOf(rows, e)
    ensures after == ServerBlocksOf(PatchBlocks(rows, x.id, p, remoteNow), e)
  {
    ServerAfterPatch(rows, x.id, p, remoteNow, e);
    PatchOfOtherDocument(rows, x, p, remoteNow, e);
    if e == d {
      PatchOfOtherDocument(rows, x, p, localNow, e);
    }
  }

  /** The selected document, when the updated block is one of its own: the
      upsert overwrites the optimistic merge with the store's row. */
  lemma SelectedHomeEntry(m: BlocksMap, rows: seq<Block>, x: Block, p: BlockPatch, localNow: string, remoteNow: string)
    requires DistinctIds(rows) && x in rows
    requires x.documentId in m && m[x.documentId] == ServerBlocksOf(rows, x.documentId)
    ensures
      var d := x.documentId;
      Upsert(m[d := PatchBlocks(m[d], x.id, p, localNow)], ApplyBlockPatch(x, p, remoteNow))[d]
        == ServerBlocksOf(PatchBlocks(rows, x.id, p, remoteNow), d)
  {
    HomeEntryAfterMerge(rows, x, p, localNow, remoteNow);
  }

  /** The updated block's own document, when another one is selected. */
  lemma UnselectedHomeEntry(m: BlocksMap, rows: seq<Block>, d: string, x: Block, p: BlockPatch,
                            localNow: string, remoteNow: string)
    requires DistinctIds(rows) && x in rows && d != x.documentId
    requires d in m && x.documentId in m && m[x.documentId] == ServerBlocksOf(rows, x.documentId)
    ensures Upsert(m[d := PatchBlocks(m[d], x.id, p, localNow)], ApplyBlockPatch(x, p, remoteNow))[x.documentId]
         == ServerBlocksOf(PatchBlocks(rows, x.id, p, remoteNow), x.documentId)
  {
    HomeEntryWithoutMerge(rows, x, p, remoteNow);
  }

  /** Any document other than the updated block's own. */
  lemma OtherEntry(m: BlocksMap, rows: seq<Block>, d: string, x: Block, p: BlockPatch,
                   localNow: string, remoteNow: string, e: string)
    requires DistinctIds(rows) && x in rows && e != x.documentId
    requires d in m && e in m && m[e] == ServerBlocksOf(rows, e)
    ensures Upsert(m[d := PatchBlocks(m[d], x.id, p, localNow)], ApplyBlockPatch(x, p, remoteNow))[e]
         == ServerBlocksOf(PatchBlocks(rows, x.id, p, remoteNow), e)
  {
    var m1 := m[d := PatchBlocks(m[d], x.id, p, localNow)];
    UpdateOtherEntry(rows, x, p, localNow, remoteNow, d, e, m1[e]);
  }

  /** One entry after a block update: the case split over whether it is the
      block's own document and whether it is the selected one. */
  lemma UpdatedEntry(m: BlocksMap, rows: seq<Block>, d: string, x: Block, p: BlockPatch,
                     localNow: string, remoteNow: string, e: string)
    requires DistinctIds(rows) && CacheMatches(m, rows) && d in m
    requires x in rows && x.documentId in m
    requires e in m
    ensures Upsert(m[d := PatchBlocks(m[d], x.id, p, localNow)], ApplyBlockPatch(x, p, remoteNow))[e]
         == ServerBlocksOf(PatchBlocks(rows, x.id, p, remoteNow), e)
  {
    if e == x.documentId && e == d {
      SelectedHomeEntry(m, rows, x, p, localNow, remoteNow);
    } else if e == x.documentId {
      UnselectedHomeEntry(m, rows, d, x, p, localNow, remoteNow);
    } else {
      OtherEntry(m, rows, d, x, p, localNow, remoteNow, e);
    }
  }

  /** The optimistic merge into the selected document `d`, the store's update
      of row `x`, and the upsert of the row the store returns keep the cache
      matching, when the block's own document is cached (as `d` is). */
  lemma UpdateBlockKeepsMatch(m: BlocksMap, rows: seq<Block>, d: string, x: Block, p: BlockPatch,
                              localNow: string, remoteNow: string)
    requires DistinctIds(rows) && CacheMatches(m, rows) && d in m
    requires x in rows && x.documentId in m
    ensures CacheMatches(
      Upsert(m[d := PatchBlocks(m[d], x.id, p, localNow)], ApplyBlockPatch(x, p, remoteNow)),
      PatchBlocks(rows, x.id, p, remoteNow))
  {
    var m2 := Upsert(m[d := PatchBlocks(m[d], x.id, p, localNow)], ApplyBlockPatch(x, p, remoteNow));
    forall e | e in m2 ensures m2[e] == ServerBlocksOf(PatchBlocks(rows, x.id, p, remoteNow), e) {
      UpdatedEntry(m, rows, d, x, p, localNow, remoteNow, e);
    }
  }

  /** Adding a created row to its document's entry, when that entry matched
      (or was absent while the store held no row of the document), keeps the
      cache matching. */
  lemma CreateBlockKeepsMatch(m: BlocksMap, rows: seq<Block>, b: Block)
    requires CacheMatches(m, rows)
    requires Lookup(m, b.documentId) == ServerBlocksOf(rows, b.documentId)
    ensures CacheMatches(m[b.documentId := AppendSorted(Lookup(m, b.documentId), b)], rows + [b])
  {
    var m' := m[b.documentId := AppendSorted(Lookup(m, b.documentId), b)];
    forall e | e in m' ensures m'[e] == ServerBlocksOf(rows + [b], e) {
      ServerAfterAppend(rows, b, e);
    }
  }

  /** A new document no row belongs to gets an empty entry that matches. */
  lemma NewDocumentKeepsMatch(m: BlocksMap, rows: seq<Block>, id: string)
    requires CacheMatches(m, rows)
    requires forall b :: b in rows ==> b.documentId != id
    ensures CacheMatches(m[id := []], rows)
  {
    ServerOfUnusedDocument(rows, id);
  }

  /** Adding a block to an empty list gives the one-block list. */
  lemma AppendToEmpty(b: Block)
    ensures AppendSorted([], b) == [b]
  {
    assert [] + [b] == [b];
    SortOfSortedIsIdentity([b]);
  }

  /** A new document with its first block gets the one-block entry, which
      matches the store after the block's insert. */
  lemma NewDocumentWithBlockKeepsMatch(m: BlocksMap, rows: seq<Block>, b: Block)
    requires CacheMatches(m, rows)
    requires forall x :: x in rows ==> x.documentId != b.documentId
    ensures CacheMatches(m[b.documentId := [b]], rows + [b])
  {
    var m' := m[b.documentId := [b]];
    forall e | e in m' ensures m'[e] == ServerBlocksOf(rows + [b], e) {
      ServerAfterAppend(rows, b, e);
      if e == b.documentId {
        ServerOfUnusedDocument(rows, e);
        AppendToEmpty(b);
      }
    }
  }

  /** Dropping a deleted document's entry, with the store's cascade of its
      rows, keeps the cache matching. */
  lemma DeleteDocumentKeepsMatch(m: BlocksMap, rows: seq<Block>, id: string)
    requires CacheMatches(m, rows)
    ensures CacheMatches(m - {id}, BlocksNotOfDocument(rows, id))
  {
    forall e | e in m - {id} ensures (m - {id})[e] == ServerBlocksOf(BlocksNotOfDocument(rows, id), e) {
      ServerAfterDocumentDelete(rows, id, e);
    }
  }
}
