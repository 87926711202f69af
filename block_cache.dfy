/** The pure state transformations behind the dashboard's `setState`
    updaters: the per-document block lists, the document list, and the
    filters the remote store applies to its own rows. */
module BlockCache {
  import opened Types
  import opened BlockLists

  /** The block cache: document id to that document's cached block list. */
  type BlocksMap = map<string, seq<Block>>

  /** `prev[id] ?? []`. */
  function Lookup(m: BlocksMap, id: string): (r: seq<Block>)
    ensures id in m ==> r == m[id]
    ensures id !in m ==> r == []
  {
    if id in m then m[id] else []
  }

  /** Some block of `s` has id `id`. */
  predicate HasId(s: seq<Block>, id: string) {
    exists i :: 0 <= i < |s| && s[i].id == id
  }

  /** No two blocks of `s` share an id. */
  predicate DistinctIds(s: seq<Block>) {
    forall i, j :: 0 <= i < j < |s| ==> s[i].id != s[j].id
  }

  /** `s.findIndex(item => item.id === id)`: the first index holding `id`,
      or -1. */
  function IndexOfId(s: seq<Block>, id: string): (r: int)
    ensures -1 <= r < |s|
    ensures r >= 0 ==> s[r].id == id && forall k :: 0 <= k < r ==> s[k].id != id
    ensures r == -1 <==> !HasId(s, id)
  {
    if s == [] then -1
    else if s[0].id == id then 0
    else
      var k := IndexOfId(s[1..], id);
      assert forall i :: 1 <= i < |s| ==> s[i] == s[1..][i - 1];
      if k < 0 then -1 else k + 1
  }

  /** `[...current, block].sort(byPosition)`: the list with `b` added, in
      position order. No check for an existing id is made. */
  function AppendSorted(current: seq<Block>, b: Block): (r: seq<Block>)
    ensures Sorted(r)
    ensures multiset(r) == multiset(current) + multiset{b}
    ensures |r| == |current| + 1
  {
    SortByPosition(current + [b])
  }

  /** The list part of `upsertBlockState`: a block whose id is already listed
      replaces the first such entry in place (no re-sort); a new block is
      appended and the list re-sorted. */
  function UpsertList(current: seq<Block>, b: Block): (r: seq<Block>)
    ensures HasId(current, b.id) ==>
      var k := IndexOfId(current, b.id);
      && |r| == |current| && r[k] == b
      && forall i :: 0 <= i < |r| && i != k ==> r[i] == current[i]
    ensures !HasId(current, b.id) ==>
      Sorted(r) && multiset(r) == multiset(current) + multiset{b}
  {
    var k := IndexOfId(current, b.id);
    if k >= 0 then current[k := b] else AppendSorted(current, b)
  }

  /** `upsertBlockState(block)`: only the entry of the block's own document
      changes (it is created if absent). */
  function Upsert(m: BlocksMap, b: Block): (r: BlocksMap)
    ensures r.Keys == m.Keys + {b.documentId}
    ensures forall d :: d in m && d != b.documentId ==> r[d] == m[d]
    ensures r[b.documentId] == UpsertList(Lookup(m, b.documentId), b)
  {
    m[b.documentId := UpsertList(Lookup(m, b.documentId), b)]
  }

  /** `current.map(block => block.id === blockId ? { ...block, ...patch,
      updated_at: now } : block)`: the optimistic merge, and also the row
      update the remote store performs. */
  function PatchBlocks(current: seq<Block>, blockId: string, p: BlockPatch, now: string): (r: seq<Block>)
    ensures |r| == |current|
    ensures forall i :: 0 <= i < |r| ==>
      r[i] == if current[i].id == blockId then ApplyBlockPatch(current[i], p, now) else current[i]
  {
    if current == [] then []
    else
      var head := if current[0].id == blockId then ApplyBlockPatch(current[0], p, now) else current[0];
      [head] + PatchBlocks(current[1..], blockId, p, now)
  }

  /** `current.filter(block => block.id !== blockId)`: the optimistic delete,
      and also the row delete the remote store performs. */
  function RemoveBlockId(current: seq<Block>, blockId: string): (r: seq<Block>)
    ensures forall x :: x in r <==> x in current && x.id != blockId
  {
    FilterMembers(current, IdIsNot(blockId));
    Filter(current, IdIsNot(blockId))
  }

  /** The rows of `rows` that belong to document `documentId`, in row order. */
  function BlocksOfDocument(rows: seq<Block>, documentId: string): (r: seq<Block>)
    ensures forall x :: x in r <==> x in rows && x.documentId == documentId
  {
    FilterMembers(rows, DocumentIs(documentId));
    Filter(rows, DocumentIs(documentId))
  }

  /** The rows of `rows` that do not belong to `documentId`: the cascade of a
      document delete. */
  function BlocksNotOfDocument(rows: seq<Block>, documentId: string): (r: seq<Block>)
    ensures forall x :: x in r <==> x in rows && x.documentId != documentId
  {
    FilterMembers(rows, DocumentIsNot(documentId));
    Filter(rows, DocumentIsNot(documentId))
  }

  /** `select * from blocks where document_id = documentId order by position`:
      what a block fetch returns. */
  function ServerBlocksOf(rows: seq<Block>, documentId: string): (r: seq<Block>)
    ensures Sorted(r)
    ensures forall x :: x in r <==> x in rows && x.documentId == documentId
    ensures multiset(r) == multiset(BlocksOfDocument(rows, documentId))
  {
    var mine := BlocksOfDocument(rows, documentId);
    assert forall x :: x in SortByPosition(mine) <==> x in multiset(mine);
    SortByPosition(mine)
  }

  /** The first block of `rows` with id `id`. */
  function FindBlock(rows: seq<Block>, id: string): (r: Option<Block>)
    ensures r.Some? <==> HasId(rows, id)
    ensures r.Some? ==> r.value == rows[IndexOfId(rows, id)]
  {
    var k := IndexOfId(rows, id);
    if k >= 0 then Some(rows[k]) else None
  }

  // ---- documents ----

  /** Some document of `docs` has id `id`. */
  predicate HasDocument(docs: seq<Document>, id: string) {
    exists i :: 0 <= i < |docs| && docs[i].id == id
  }

  /** No two documents of `docs` share an id, as the store's primary key on
      `documents.id` keeps them. */
  predicate DocumentIdsDistinct(docs: seq<Document>) {
    forall i, j :: 0 <= i < j < |docs| ==> docs[i].id != docs[j].id
  }

  /** `docs.find(doc => doc.id === id) ?? null`. */
  function FindDocument(docs: seq<Document>, id: string): (r: Option<Document>)
    ensures r.Some? <==> HasDocument(docs, id)
    ensures r.Some? ==> r.value in docs && r.value.id == id
    ensures r.Some? ==>
      exists i :: (0 <= i < |docs| && docs[i] == r.value && forall k :: 0 <= k < i ==> docs[k].id != id)
  {
    if docs == [] then None
    else if docs[0].id == id then Some(docs[0])
    else
      var r := FindDocument(docs[1..], id);
      assert forall i :: 1 <= i < |docs| ==> docs[i] == docs[1..][i - 1];
      r
  }

  /** `docs.map(doc => doc.id === id ? { ...doc, ...patch, updated_at: now }
      : doc)`: the optimistic title or icon change, and also the row update
      the remote store performs. */
  function UpdateDocuments(docs: seq<Document>, id: string, p: DocumentPatch, now: string): (r: seq<Document>)
    ensures |r| == |docs|
    ensures forall i :: 0 <= i < |r| ==>
      r[i] == if docs[i].id == id then ApplyDocumentPatch(docs[i], p, now) else docs[i]
  {
    if docs == [] then []
    else
      var head := if docs[0].id == id then ApplyDocumentPatch(docs[0], p, now) else docs[0];
      [head] + UpdateDocuments(docs[1..], id, p, now)
  }

  /** `docs.filter(doc => doc.id !== id)`. */
  function RemoveDocumentId(docs: seq<Document>, id: string): (r: seq<Document>)
    ensures |r| <= |docs|
    ensures forall x :: x in r <==> x in docs && x.id != id
    ensures !HasDocument(r, id)
  {
    if docs == [] then []
    else
      (if docs[0].id != id then [docs[0]] else [])
      + RemoveDocumentId(docs[1..], id)
  }

  /** The selection after deleting `id`: unchanged unless `id` was selected,
      in which case it moves to the head of the remaining list, or to none. */
  function SelectionAfterDelete(selected: Option<string>, id: string, remaining: seq<Document>): (r: Option<string>)
    ensures selected != Some(id) ==> r == selected
    ensures selected == Some(id) && remaining != [] ==> r == Some(remaining[0].id)
    ensures selected == Some(id) && remaining == [] ==> r == None
  {
    if selected == Some(id) then
      if remaining != [] then Some(remaining[0].id) else None
    else selected
  }

  /** `initialDocumentId ?? documents[0]?.id ?? null`. */
  function InitialSelection(initialDocumentId: Option<string>, documents: seq<Document>): (r: Option<string>)
    ensures initialDocumentId.Some? ==> r == initialDocumentId
    ensures initialDocumentId.None? && documents != [] ==> r == Some(documents[0].id)
    ensures initialDocumentId.None? && documents == [] ==> r == None
  {
    if initialDocumentId.Some? then initialDocumentId
    else if documents != [] then Some(documents[0].id)
    else None
  }

  /** The cache's initial value: the initial document's blocks only, and
      nothing when there is no (truthy) initial document id. */
  function InitialCache(initialDocumentId: Option<string>, initialBlocks: seq<Block>): (r: BlocksMap)
    ensures Truthy(initialDocumentId) ==> r.Keys == {initialDocumentId.value}
    ensures Truthy(initialDocumentId) ==> r[initialDocumentId.value] == initialBlocks
    ensures !Truthy(initialDocumentId) ==> r == map[]
  {
    if Truthy(initialDocumentId) then map[initialDocumentId.value := initialBlocks] else map[]
  }
}
