/** The dashboard: the state it keeps for one workspace (the document list,
    the selected document, the block cache and the saving flag) and its
    handlers, each of which checks the caller's role, optionally changes the
    local state first, makes one call to the remote store, and then takes in
    the row the store returns or re-fetches the document's blocks. Awaits are
    sequential steps; each handler runs to completion before the next. */
module Dashboard {
  import opened Types
  import opened BlockLists
  import opened BlockCache
  import opened CacheSync
  import opened Permissions
  import opened Remote
  import DocumentEditor

  /** The title and icon of a document the dashboard creates. */
  const NewDocumentTitle: string := "Untitled"
  const NewDocumentIcon: string := "\U{1F4DD}"

  /** The text of the block a new document starts with. */
  const FirstBlockText: string := "New block"

  /** `{text: "New block"}`, the content of a new document's first block. */
  function FirstBlockContent(): (r: Content)
    ensures r.text == Some(FirstBlockText) && r.checked.None?
  {
    Content(Some(FirstBlockText), None)
  }

  /** `{text: ""}`, the content of a block added to a document. */
  function EmptyBlockContent(): (r: Content)
    ensures r.text == Some("") && r.checked.None?
  {
    Content(Some(""), None)
  }

  /** No stored block belongs to a document id the store does not hold. */
  lemma NoBlocksOfUnknownDocument(blocks: seq<Block>, documents: seq<Document>, id: string)
    requires EveryBlockHasDocument(blocks, documents) && !HasDocument(documents, id)
    ensures forall x :: x in blocks ==> x.documentId != id
  {
  }

  /** A sorted list stays sorted when a block placed after all of it is
      appended. */
  lemma SortedPastEnd(s: seq<Block>, b: Block)
    requires Sorted(s)
    requires forall k :: 0 <= k < |s| ==> s[k].position < b.position
    ensures Sorted(s + [b])
  {
    var t := s + [b];
    forall i, j | 0 <= i < j < |t| ensures t[i].position <= t[j].position {
      assert t[i] == s[i];
      if j < |s| {
        assert t[j] == s[j];
      }
    }
  }

  /** A block placed after every listed block lands at the end of the
      position-ordered list. */
  lemma AppendPastEnd(current: seq<Block>, b: Block)
    requires forall k :: 0 <= k < |current| ==> current[k].position < b.position
    ensures AppendSorted(current, b) == SortByPosition(current) + [b]
  {
    var sorted := SortByPosition(current);
    SortIgnoresPresorting(current, [b]);
    forall k | 0 <= k < |sorted| ensures sorted[k].position < b.position {
      assert sorted[k] in multiset(current);
      var j :| 0 <= j < |current| && current[j] == sorted[k];
    }
    SortedPastEnd(sorted, b);
    SortOfSortedIsIdentity(sorted + [b]);
  }

  /** "Add block" on a document's shown list, once the store has created the
      block, puts the new block at the end of what the editor shows. */
  lemma AddedBlockShowsLast(d: Document, blocks: seq<Block>, newId: string, now: string)
    ensures
      var request := DocumentEditor.AddBlockRequest(true, d, blocks).value;
      var row := NewBlockRow(newId, request.0, Paragraph, EmptyBlockContent(), request.1, now);
      DocumentEditor.BlockList(AppendSorted(blocks, row)) == DocumentEditor.BlockList(blocks) + [row]
  {
    var request := DocumentEditor.AddBlockRequest(true, d, blocks).value;
    var row := NewBlockRow(newId, request.0, Paragraph, EmptyBlockContent(), request.1, now);
    var appended := AppendSorted(blocks, row);
    AppendPastEnd(blocks, row);
    SortOfSortedIsIdentity(appended);
    assert DocumentEditor.BlockList(appended) == SortByPosition(appended);
    assert DocumentEditor.BlockList(blocks) == SortByPosition(blocks);
  }

  class DashboardShell {
    const role: Role
    const workspaceId: string
    const remote: RemoteStore

    var documentList: seq<Document>
    var selectedDocumentId: Option<string>
    var blocksByDocument: BlocksMap
    var isSaving: bool

    /** Between handlers the store's rows are well formed and nothing is
        being saved. */
    ghost predicate Valid()
      reads this, remote
    {
      remote.Valid() && !isSaving
    }

    /** The dashboard as the page first renders it. */
    constructor (role: Role, workspaceId: string, documents: seq<Document>,
                 initialDocumentId: Option<string>, initialBlocks: seq<Block>, remote: RemoteStore)
      requires remote.Valid()
      ensures Valid()
      ensures this.role == role && this.workspaceId == workspaceId && this.remote == remote
      ensures documentList == documents
      ensures selectedDocumentId == InitialSelection(initialDocumentId, documents)
      ensures blocksByDocument == InitialCache(initialDocumentId, initialBlocks)
      ensures !isSaving
    {
      this.role := role;
      this.workspaceId := workspaceId;
      this.remote := remote;
      documentList := documents;
      selectedDocumentId := InitialSelection(initialDocumentId, documents);
      blocksByDocument := InitialCache(initialDocumentId, initialBlocks);
      isSaving := false;
    }

    /** The effect that runs when the initial document or its blocks change:
        the initial document's entry is replaced, the others are kept. */
    method ReceiveInitialBlocks(initialDocumentId: Option<string>, initialBlocks: seq<Block>)
      modifies this
      ensures Truthy(initialDocumentId) ==>
        blocksByDocument == old(blocksByDocument)[initialDocumentId.value := initialBlocks]
      ensures !Truthy(initialDocumentId) ==> blocksByDocument == old(blocksByDocument)
      ensures documentList == old(documentList) && selectedDocumentId == old(selectedDocumentId)
      ensures isSaving == old(isSaving)
    {
      if Truthy(initialDocumentId) {
        blocksByDocument := blocksByDocument[initialDocumentId.value := initialBlocks];
      }
    }

    /** `selectedDocument`: the first listed document with the selected id. */
    function SelectedDocument(): (r: Option<Document>)
      reads this
      ensures r.Some? <==> selectedDocumentId.Some? && HasDocument(documentList, selectedDocumentId.value)
      ensures r.Some? ==> r.value in documentList && r.value.id == selectedDocumentId.value
    {
      if selectedDocumentId.Some? then FindDocument(documentList, selectedDocumentId.value) else None
    }

    /** `selectedBlocks`: the selected document's cached list, or nothing. */
    function SelectedBlocks(): (r: seq<Block>)
      reads this
      ensures SelectedDocument().None? ==> r == []
      ensures SelectedDocument().Some? && selectedDocumentId.value in blocksByDocument ==>
        r == blocksByDocument[selectedDocumentId.value]
      ensures selectedDocumentId.Some? && selectedDocumentId.value !in blocksByDocument ==> r == []
    {
      match SelectedDocument()
      case Some(d) => Lookup(blocksByDocument, d.id)
      case None => []
    }

    /** `fetchBlocks`: on success the document's entry becomes the store's
        position-ordered list; on failure nothing changes. */
    method FetchBlocks(documentId: string, ok: bool)
      requires remote.Valid()
      modifies this, remote
      ensures remote.Valid()
      ensures blocksByDocument == if ok then old(blocksByDocument)[documentId := ServerBlocksOf(remote.blocks, documentId)]
                                  else old(blocksByDocument)
      ensures ok ==> documentId in blocksByDocument && blocksByDocument[documentId] == ServerBlocksOf(remote.blocks, documentId)
      ensures remote.documents == old(remote.documents) && remote.blocks == old(remote.blocks)
      ensures remote.calls == old(remote.calls) + 1
      ensures documentList == old(documentList) && selectedDocumentId == old(selectedDocumentId)
      ensures isSaving == old(isSaving)
    {
      var r := remote.ListBlocks(documentId, ok);
      if r.Success? {
        blocksByDocument := blocksByDocument[documentId := r.value];
      }
    }

    /** `handleSelectDocument`: always selects; fetches only a document that
        has no entry yet (an empty list is an entry). */
    method HandleSelectDocument(documentId: string, fetchOk: bool)
      requires Valid()
      modifies this, remote
      ensures Valid()
      ensures selectedDocumentId == Some(documentId)
      ensures documentId in old(blocksByDocument) ==>
        blocksByDocument == old(blocksByDocument) && unchanged(remote)
      ensures documentId !in old(blocksByDocument) ==>
        blocksByDocument == (if fetchOk then old(blocksByDocument)[documentId := ServerBlocksOf(remote.blocks, documentId)]
                             else old(blocksByDocument))
        && remote.calls == old(remote.calls) + 1
      ensures remote.documents == old(remote.documents) && remote.blocks == old(remote.blocks)
      ensures documentList == old(documentList)
      ensures old(CacheMatches(blocksByDocument, remote.blocks)) ==> CacheMatches(blocksByDocument, remote.blocks)
    {
      selectedDocumentId := Some(documentId);
      if documentId !in blocksByDocument {
        if CacheMatches(blocksByDocument, remote.blocks) {
          FetchKeepsMatch(blocksByDocument, remote.blocks, documentId);
        }
        FetchBlocks(documentId, fetchOk);
      }
    }

    /** `handleCreateDocument`: the store creates the document, which is put
        in front of the list and selected; then the store creates its first
        block, and the document's entry is that block, or empty when the
        block insert fails. */
    method HandleCreateDocument(newDocumentId: string, newBlockId: string, now: string,
                                documentOk: bool, blockOk: bool)
      requires Valid()
      modifies this, remote
      ensures Valid()
      ensures !CanEdit(role) ==> unchanged(this) && unchanged(remote)
      ensures CanEdit(role) && !(documentOk && !HasDocument(old(remote.documents), newDocumentId)) ==>
        documentList == old(documentList) && selectedDocumentId == old(selectedDocumentId)
        && blocksByDocument == old(blocksByDocument)
        && remote.documents == old(remote.documents) && remote.blocks == old(remote.blocks)
      ensures CanEdit(role) && documentOk && !HasDocument(old(remote.documents), newDocumentId) ==>
        var doc := NewDocumentRow(newDocumentId, workspaceId, NewDocumentTitle, NewDocumentIcon, now);
        var block := NewBlockRow(newBlockId, newDocumentId, Paragraph, FirstBlockContent(), 1, now);
        var blockCreated := blockOk && !HasId(old(remote.blocks), newBlockId);
        && documentList == [doc] + old(documentList)
        && selectedDocumentId == Some(newDocumentId)
        && blocksByDocument == old(blocksByDocument)[newDocumentId := if blockCreated then [block] else []]
        && remote.documents == old(remote.documents) + [doc]
        && remote.blocks == old(remote.blocks) + (if blockCreated then [block] else [])
      ensures old(CacheMatches(blocksByDocument, remote.blocks)) ==> CacheMatches(blocksByDocument, remote.blocks)
    {
      if !CanEdit(role) {
        return;
      }
      isSaving := true;
      var doc := remote.InsertDocument(workspaceId, NewDocumentTitle, NewDocumentIcon, newDocumentId, now, documentOk);
      if doc.Failure? {
        isSaving := false;
        return;
      }
      ghost var rows := remote.blocks;
      NoBlocksOfUnknownDocument(rows, old(remote.documents), newDocumentId);
      documentList := [doc.value] + documentList;
      selectedDocumentId := Some(doc.value.id);
      assert HasDocument(remote.documents, newDocumentId) by {
        assert remote.documents[|remote.documents| - 1] == doc.value;
      }
      var block := remote.InsertBlock(doc.value.id, Paragraph, FirstBlockContent(), 1, newBlockId, now, blockOk);
      if block.Failure? {
        if CacheMatches(blocksByDocument, rows) {
          NewDocumentKeepsMatch(blocksByDocument, rows, newDocumentId);
        }
        blocksByDocument := blocksByDocument[doc.value.id := []];
      } else {
        if CacheMatches(blocksByDocument, rows) {
          NewDocumentWithBlockKeepsMatch(blocksByDocument, rows, block.value);
        }
        blocksByDocument := blocksByDocument[doc.value.id := [block.value]];
      }
      isSaving := false;
    }

    /** `handleDeleteDocument`: once the store has deleted the document (and,
        by cascade, its blocks) it leaves the list and the cache; a selection
        of it moves to the head of the remaining list, or to none. */
    method HandleDeleteDocument(documentId: string, ok: bool)
      requires Valid()
      modifies this, remote
      ensures Valid()
      ensures !CanEdit(role) ==> unchanged(this) && unchanged(remote)
      ensures CanEdit(role) && !ok ==>
        documentList == old(documentList) && selectedDocumentId == old(selectedDocumentId)
        && blocksByDocument == old(blocksByDocument)
        && remote.documents == old(remote.documents) && remote.blocks == old(remote.blocks)
      ensures CanEdit(role) && ok ==>
        && documentList == RemoveDocumentId(old(documentList), documentId)
        && selectedDocumentId == SelectionAfterDelete(old(selectedDocumentId), documentId, documentList)
        && blocksByDocument == old(blocksByDocument) - {documentId}
        && remote.blocks == BlocksNotOfDocument(old(remote.blocks), documentId)
        && remote.documents == RemoveDocumentId(old(remote.documents), documentId)
      ensures old(CacheMatches(blocksByDocument, remote.blocks)) ==> CacheMatches(blocksByDocument, remote.blocks)
    {
      if !CanEdit(role) {
        return;
      }
      isSaving := true;
      ghost var rows := remote.blocks;
      var r := remote.DeleteDocument(documentId, ok);
      if r == Fail {
        isSaving := false;
        return;
      }
      var next := RemoveDocumentId(documentList, documentId);
      selectedDocumentId := SelectionAfterDelete(selectedDocumentId, documentId, next);
      documentList := next;
      if CacheMatches(blocksByDocument, rows) {
        DeleteDocumentKeepsMatch(blocksByDocument, rows, documentId);
      }
      blocksByDocument := blocksByDocument - {documentId};
      isSaving := false;
    }

    /** The shared body of the title and icon handlers: the change is made
        locally first and kept whether or not the store's update succeeds. */
    method EditDocument(documentId: string, p: DocumentPatch, localNow: string, remoteNow: string, ok: bool)
      requires Valid()
      modifies this, remote
      ensures Valid()
      ensures !CanEdit(role) ==> unchanged(this) && unchanged(remote)
      ensures CanEdit(role) ==>
        documentList == UpdateDocuments(old(documentList), documentId, p, localNow)
        && remote.documents == (if ok then UpdateDocuments(old(remote.documents), documentId, p, remoteNow)
                                else old(remote.documents))
      ensures selectedDocumentId == old(selectedDocumentId) && blocksByDocument == old(blocksByDocument)
      ensures remote.blocks == old(remote.blocks)
    {
      if !CanEdit(role) {
        return;
      }
      documentList := UpdateDocuments(documentList, documentId, p, localNow);
      var r := remote.UpdateDocument(documentId, p, remoteNow, ok);
    }

    /** `handleUpdateDocumentTitle`. */
    method HandleUpdateDocumentTitle(documentId: string, title: string, localNow: string, remoteNow: string, ok: bool)
      requires Valid()
      modifies this, remote
      ensures Valid()
      ensures !CanEdit(role) ==> unchanged(this) && unchanged(remote)
      ensures CanEdit(role) ==>
        documentList == UpdateDocuments(old(documentList), documentId, SetTitle(title), localNow)
        && remote.documents == (if ok then UpdateDocuments(old(remote.documents), documentId, SetTitle(title), remoteNow)
                                else old(remote.documents))
      ensures selectedDocumentId == old(selectedDocumentId) && blocksByDocument == old(blocksByDocument)
      ensures remote.blocks == old(remote.blocks)
    {
      EditDocument(documentId, SetTitle(title), localNow, remoteNow, ok);
    }

    /** `handleUpdateDocumentIcon`. */
    method HandleUpdateDocumentIcon(documentId: string, icon: string, localNow: string, remoteNow: string, ok: bool)
      requires Valid()
      modifies this, remote
      ensures Valid()
      ensures !CanEdit(role) ==> unchanged(this) && unchanged(remote)
      ensures CanEdit(role) ==>
        documentList == UpdateDocuments(old(documentList), documentId, SetIcon(icon), localNow)
        && remote.documents == (if ok then UpdateDocuments(old(remote.documents), documentId, SetIcon(icon), remoteNow)
                                else old(remote.documents))
      ensures selectedDocumentId == old(selectedDocumentId) && blocksByDocument == old(blocksByDocument)
      ensures remote.blocks == old(remote.blocks)
    {
      EditDocument(documentId, SetIcon(icon), localNow, remoteNow, ok);
    }

    /** `upsertBlockState`: the row given replaces the listed block with its
        id in place, or joins its document's list in position order. */
    method UpsertBlockState(block: Block)
      modifies this
      ensures blocksByDocument == Upsert(old(blocksByDocument), block)
      ensures documentList == old(documentList) && selectedDocumentId == old(selectedDocumentId)
      ensures isSaving == old(isSaving)
    {
      blocksByDocument := Upsert(blocksByDocument, block);
    }

    /** `handleUpdateBlock`: merges the update into the selected document's
        list, then asks the store; the row the store returns is upserted,
        and a failure re-fetches the selected document's blocks. */
    method HandleUpdateBlock(blockId: string, patch: BlockPatch, localNow: string, remoteNow: string,
                             updateOk: bool, fetchOk: bool)
      requires Valid()
      modifies this, remote
      ensures Valid()
      ensures !Truthy(old(selectedDocumentId)) || !CanEdit(role) ==> unchanged(this) && unchanged(remote)
      ensures Truthy(old(selectedDocumentId)) && CanEdit(role) ==>
        var d := old(selectedDocumentId).value;
        var merged := old(blocksByDocument)[d := PatchBlocks(Lookup(old(blocksByDocument), d), blockId, patch, localNow)];
        if UpdateBlockSucceeds(old(remote.blocks), blockId, updateOk) then
          && remote.blocks == PatchBlocks(old(remote.blocks), blockId, patch, remoteNow)
          && blocksByDocument == Upsert(merged, ApplyBlockPatch(FindBlock(old(remote.blocks), blockId).value, patch, remoteNow))
        else
          && remote.blocks == old(remote.blocks)
          && blocksByDocument == if fetchOk then merged[d := ServerBlocksOf(remote.blocks, d)] else merged
      ensures Truthy(old(selectedDocumentId)) && CanEdit(role) && !UpdateBlockSucceeds(old(remote.blocks), blockId, updateOk)
              && fetchOk ==>
        blocksByDocument[old(selectedDocumentId).value] == ServerBlocksOf(remote.blocks, old(selectedDocumentId).value)
      ensures (&& old(CacheMatches(blocksByDocument, remote.blocks))
               && !UpdateBlockSucceeds(old(remote.blocks), blockId, updateOk) && fetchOk)
              ==> CacheMatches(blocksByDocument, remote.blocks)
      ensures (&& old(CacheMatches(blocksByDocument, remote.blocks))
               && UpdateBlockSucceeds(old(remote.blocks), blockId, updateOk)
               && old(selectedDocumentId).Some? && old(selectedDocumentId).value in old(blocksByDocument)
               && FindBlock(old(remote.blocks), blockId).value.documentId in old(blocksByDocument))
              ==> CacheMatches(blocksByDocument, remote.blocks)
      ensures documentList == old(documentList) && selectedDocumentId == old(selectedDocumentId)
      ensures remote.documents == old(remote.documents)
    {
      var target := selectedDocumentId;
      if !Truthy(target) {
        return;
      }
      if !CanEdit(role) {
        return;
      }
      isSaving := true;
      var d := target.value;
      ghost var before := blocksByDocument;
      ghost var rows := remote.blocks;
      ghost var found := FindBlock(rows, blockId);
      blocksByDocument := blocksByDocument[d := PatchBlocks(Lookup(blocksByDocument, d), blockId, patch, localNow)];
      var r := remote.UpdateBlock(blockId, patch, remoteNow, updateOk);
      if r.Failure? {
        if CacheMatches(before, rows) {
          RefetchKeepsMatch(before, rows, d, blocksByDocument[d]);
        }
        FetchBlocks(d, fetchOk);
      } else {
        if CacheMatches(before, rows) && d in before && found.value.documentId in before {
          UpdateBlockKeepsMatch(before, rows, d, found.value, patch, localNow, remoteNow);
        }
        UpsertBlockState(r.value);
      }
      isSaving := false;
    }

    /** `handleCreateBlock`: once the store has created the block, it joins
        its document's list in position order; no check is made for a listed
        block with the same id. */
    method HandleCreateBlock(documentId: string, position: int, newId: string, now: string, ok: bool)
      requires Valid()
      modifies this, remote
      ensures Valid()
      ensures !CanEdit(role) ==> unchanged(this) && unchanged(remote)
      ensures CanEdit(role) ==>
        var block := NewBlockRow(newId, documentId, Paragraph, EmptyBlockContent(), position, now);
        if ok && !HasId(old(remote.blocks), newId) && HasDocument(old(remote.documents), documentId) then
          && remote.blocks == old(remote.blocks) + [block]
          && blocksByDocument == old(blocksByDocument)[documentId := AppendSorted(Lookup(old(blocksByDocument), documentId), block)]
        else
          remote.blocks == old(remote.blocks) && blocksByDocument == old(blocksByDocument)
      ensures old(CacheMatches(blocksByDocument, remote.blocks))
              && old(Lookup(blocksByDocument, documentId) == ServerBlocksOf(remote.blocks, documentId)) ==>
        CacheMatches(blocksByDocument, remote.blocks)
      ensures documentList == old(documentList) && selectedDocumentId == old(selectedDocumentId)
      ensures remote.documents == old(remote.documents)
    {
      if !CanEdit(role) {
        return;
      }
      isSaving := true;
      ghost var before := blocksByDocument;
      ghost var rows := remote.blocks;
      var r := remote.InsertBlock(documentId, Paragraph, EmptyBlockContent(), position, newId, now, ok);
      if r.Failure? {
        isSaving := false;
        return;
      }
      if CacheMatches(before, rows) && Lookup(before, documentId) == ServerBlocksOf(rows, documentId) {
        CreateBlockKeepsMatch(before, rows, r.value);
      }
      AddCreatedBlock(r.value);
      isSaving := false;
    }

    /** The created row joins its document's list in position order. */
    method AddCreatedBlock(block: Block)
      modifies this
      ensures blocksByDocument == old(blocksByDocument)[block.documentId := AppendSorted(Lookup(old(blocksByDocument), block.documentId), block)]
      ensures documentList == old(documentList) && selectedDocumentId == old(selectedDocumentId)
      ensures isSaving == old(isSaving)
    {
      blocksByDocument := blocksByDocument[block.documentId := AppendSorted(Lookup(blocksByDocument, block.documentId), block)];
    }

    /** `handleDeleteBlock`: removes the block from the selected document's
        list, then asks the store; a failure re-fetches that document's
        blocks. */
    method HandleDeleteBlock(blockId: string, deleteOk: bool, fetchOk: bool)
      requires Valid()
      modifies this, remote
      ensures Valid()
      ensures !Truthy(old(selectedDocumentId)) || !CanEdit(role) ==> unchanged(this) && unchanged(remote)
      ensures Truthy(old(selectedDocumentId)) && CanEdit(role) ==>
        var d := old(selectedDocumentId).value;
        var removed := old(blocksByDocument)[d := RemoveBlockId(Lookup(old(blocksByDocument), d), blockId)];
        if deleteOk then
          remote.blocks == RemoveBlockId(old(remote.blocks), blockId) && blocksByDocument == removed
        else
          && remote.blocks == old(remote.blocks)
          && blocksByDocument == if fetchOk then removed[d := ServerBlocksOf(remote.blocks, d)] else removed
      ensures Truthy(old(selectedDocumentId)) && CanEdit(role) && !deleteOk && fetchOk ==>
        blocksByDocument[old(selectedDocumentId).value] == ServerBlocksOf(remote.blocks, old(selectedDocumentId).value)
      ensures old(CacheMatches(blocksByDocument, remote.blocks)) && !deleteOk && fetchOk ==>
        CacheMatches(blocksByDocument, remote.blocks)
      ensures (&& old(CacheMatches(blocksByDocument, remote.blocks)) && deleteOk
               && old(selectedDocumentId).Some? && old(selectedDocumentId).value in old(blocksByDocument)
               && forall b :: b in old(remote.blocks) && b.id == blockId ==> b.documentId == old(selectedDocumentId).value)
              ==> CacheMatches(blocksByDocument, remote.blocks)
      ensures documentList == old(documentList) && selectedDocumentId == old(selectedDocumentId)
      ensures remote.documents == old(remote.documents)
    {
      var target := selectedDocumentId;
      if !Truthy(target) {
        return;
      }
      if !CanEdit(role) {
        return;
      }
      isSaving := true;
      var d := target.value;
      ghost var before := blocksByDocument;
      ghost var rows := remote.blocks;
      blocksByDocument := blocksByDocument[d := RemoveBlockId(Lookup(blocksByDocument, d), blockId)];
      var r := remote.DeleteBlock(blockId, deleteOk);
      if r == Fail {
        if CacheMatches(before, rows) {
          RefetchKeepsMatch(before, rows, d, blocksByDocument[d]);
        }
        FetchBlocks(d, fetchOk);
      } else if CacheMatches(before, rows) && d in before
                && forall b :: b in rows && b.id == blockId ==> b.documentId == d {
        DeleteBlockKeepsMatch(before, rows, d, blockId);
      }
      isSaving := false;
    }
  }
}
