/** The remote store the dashboard talks to, as an in-memory server holding
    the `documents` and `blocks` tables, with a primary key on block ids and a
    foreign key from blocks to documents that deletes cascade along. Every call takes `ok`, which says
    whether the call reaches the store (network and store errors are not
    told apart), and counts itself in `calls`. Ids and timestamps the server
    generates are passed in; an insert whose id is already taken fails, as a
    primary-key conflict does. */
module Remote {
  import opened Types
  import opened BlockLists
  import opened BlockCache
  import opened CacheLaws

  /** The row the server creates for a new document. */
  function NewDocumentRow(id: string, workspaceId: string, title: string, icon: string, now: string): (r: Document)
    ensures r.id == id && r.workspaceId == workspaceId && r.title == title && r.icon == Some(icon)
    ensures r.parentId == None && !r.isFavorite && r.updatedAt == now
  {
    Document(id, workspaceId, None, title, Some(icon), None, false, now, now)
  }

  /** The row the server creates for a new block. */
  function NewBlockRow(id: string, documentId: string, typ: BlockType, content: Content, position: int, now: string): (r: Block)
    ensures r.id == id && r.documentId == documentId && r.typ == typ
    ensures r.content == content && r.position == position && r.updatedAt == now
  {
    Block(id, documentId, typ, content, position, now, now)
  }

  /** A block update returns a row exactly when the call gets through and
      some row has the id (`.single()` fails on no row). */
  predicate UpdateBlockSucceeds(rows: seq<Block>, blockId: string, ok: bool) {
    ok && HasId(rows, blockId)
  }

  /** The foreign key from `blocks.document_id` to `documents.id`. */
  predicate EveryBlockHasDocument(blocks: seq<Block>, documents: seq<Document>) {
    forall b :: b in blocks ==> HasDocument(documents, b.documentId)
  }

  /** Rows the store may hold: document ids and block ids are primary keys,
      and every block belongs to a stored document. */
  predicate ValidRows(documents: seq<Document>, blocks: seq<Block>) {
    DocumentIdsDistinct(documents) && DistinctIds(blocks) && EveryBlockHasDocument(blocks, documents)
  }

  lemma AppendDocumentKeepsOwners(blocks: seq<Block>, documents: seq<Document>, row: Document)
    requires EveryBlockHasDocument(blocks, documents)
    ensures EveryBlockHasDocument(blocks, documents + [row])
  {
    forall b | b in blocks ensures HasDocument(documents + [row], b.documentId) {
      var i :| 0 <= i < |documents| && documents[i].id == b.documentId;
      assert (documents + [row])[i] == documents[i];
    }
  }

  lemma DeleteDocumentKeepsOwners(blocks: seq<Block>, documents: seq<Document>, id: string)
    requires EveryBlockHasDocument(blocks, documents)
    ensures EveryBlockHasDocument(BlocksNotOfDocument(blocks, id), RemoveDocumentId(documents, id))
  {
    var rest := RemoveDocumentId(documents, id);
    forall b | b in BlocksNotOfDocument(blocks, id) ensures HasDocument(rest, b.documentId) {
      var i :| 0 <= i < |documents| && documents[i].id == b.documentId;
      assert documents[i] in rest;
      var j :| 0 <= j < |rest| && rest[j] == documents[i];
    }
  }

  lemma UpdateDocumentKeepsOwners(blocks: seq<Block>, documents: seq<Document>, id: string, p: DocumentPatch, now: string)
    requires EveryBlockHasDocument(blocks, documents)
    ensures EveryBlockHasDocument(blocks, UpdateDocuments(documents, id, p, now))
  {
    var updated := UpdateDocuments(documents, id, p, now);
    forall b | b in blocks ensures HasDocument(updated, b.documentId) {
      var i :| 0 <= i < |documents| && documents[i].id == b.documentId;
      assert updated[i].id == documents[i].id;
    }
  }

  lemma AppendBlockKeepsOwners(blocks: seq<Block>, documents: seq<Document>, row: Block)
    requires EveryBlockHasDocument(blocks, documents) && HasDocument(documents, row.documentId)
    ensures EveryBlockHasDocument(blocks + [row], documents)
  {
  }

  lemma PatchBlocksKeepsOwners(blocks: seq<Block>, documents: seq<Document>, id: string, p: BlockPatch, now: string)
    requires EveryBlockHasDocument(blocks, documents)
    ensures EveryBlockHasDocument(PatchBlocks(blocks, id, p, now), documents)
  {
    var patched := PatchBlocks(blocks, id, p, now);
    forall b | b in patched ensures HasDocument(documents, b.documentId) {
      var i :| 0 <= i < |patched| && patched[i] == b;
      assert blocks[i] in blocks;
    }
  }

  lemma RemoveBlockKeepsOwners(blocks: seq<Block>, documents: seq<Document>, id: string)
    requires EveryBlockHasDocument(blocks, documents)
    ensures EveryBlockHasDocument(RemoveBlockId(blocks, id), documents)
  {
  }

  class RemoteStore {
    var documents: seq<Document>
    var blocks: seq<Block>
    var calls: nat

    ghost predicate Valid()
      reads this
    {
      ValidRows(documents, blocks)
    }

    constructor (documents: seq<Document>, blocks: seq<Block>)
      requires ValidRows(documents, blocks)
      ensures Valid()
      ensures this.documents == documents && this.blocks == blocks && calls == 0
    {
      this.documents := documents;
      this.blocks := blocks;
      calls := 0;
    }

    /** `from("blocks").select("*").eq("document_id", documentId)
        .order("position")`. */
    method ListBlocks(documentId: string, ok: bool) returns (r: Result<seq<Block>>)
      requires Valid()
      modifies this
      ensures Valid()
      ensures documents == old(documents) && blocks == old(blocks) && calls == old(calls) + 1
      ensures r == if ok then Success(ServerBlocksOf(blocks, documentId)) else Failure
    {
      calls := calls + 1;
      if ok {
        r := Success(ServerBlocksOf(blocks, documentId));
      } else {
        r := Failure;
      }
    }

    /** `from("documents").insert({workspace_id, title, icon}).select("*")
        .single()`. */
    method InsertDocument(workspaceId: string, title: string, icon: string, newId: string, now: string, ok: bool)
      returns (r: Result<Document>)
      requires Valid()
      modifies this
      ensures Valid()
      ensures r.Success? <==> ok && !HasDocument(old(documents), newId)
      ensures r.Success? ==>
        r.value == NewDocumentRow(newId, workspaceId, title, icon, now) && documents == old(documents) + [r.value]
      ensures r.Failure? ==> documents == old(documents)
      ensures blocks == old(blocks) && calls == old(calls) + 1
    {
      calls := calls + 1;
      if ok && !HasDocument(documents, newId) {
        var row := NewDocumentRow(newId, workspaceId, title, icon, now);
        AppendDocumentKeepsOwners(blocks, documents, row);
        AppendDocumentKeepsDistinct(documents, row);
        documents := documents + [row];
        r := Success(row);
      } else {
        r := Failure;
      }
    }

    /** `from("documents").delete().eq("id", id)`; the store cascades the
        delete to the document's blocks. */
    method DeleteDocument(id: string, ok: bool) returns (r: Outcome)
      requires Valid()
      modifies this
      ensures Valid()
      ensures r == if ok then Pass else Fail
      ensures ok ==> documents == RemoveDocumentId(old(documents), id)
      ensures ok ==> blocks == BlocksNotOfDocument(old(blocks), id)
      ensures !ok ==> documents == old(documents) && blocks == old(blocks)
      ensures calls == old(calls) + 1
    {
      calls := calls + 1;
      if ok {
        FilterKeepsDistinct(blocks, DocumentIsNot(id));
        DeleteDocumentKeepsOwners(blocks, documents, id);
        RemoveDocumentKeepsDistinct(documents, id);
        documents := RemoveDocumentId(documents, id);
        blocks := BlocksNotOfDocument(blocks, id);
        r := Pass;
      } else {
        r := Fail;
      }
    }

    /** `from("documents").update({...patch, updated_at}).eq("id", id)`. */
    method UpdateDocument(id: string, p: DocumentPatch, now: string, ok: bool) returns (r: Outcome)
      requires Valid()
      modifies this
      ensures Valid()
      ensures r == if ok then Pass else Fail
      ensures documents == if ok then UpdateDocuments(old(documents), id, p, now) else old(documents)
      ensures blocks == old(blocks) && calls == old(calls) + 1
    {
      calls := calls + 1;
      if ok {
        UpdateDocumentKeepsOwners(blocks, documents, id, p, now);
        UpdateDocumentsKeepsDistinct(documents, id, p, now);
        documents := UpdateDocuments(documents, id, p, now);
        r := Pass;
      } else {
        r := Fail;
      }
    }

    /** `from("blocks").insert({document_id, type, content, position})
        .select("*").single()`: fails also when the document is not stored
        (the foreign key). */
    method InsertBlock(documentId: string, typ: BlockType, content: Content, position: int,
                       newId: string, now: string, ok: bool)
      returns (r: Result<Block>)
      requires Valid()
      modifies this
      ensures Valid()
      ensures r.Success? <==> ok && !HasId(old(blocks), newId) && HasDocument(documents, documentId)
      ensures r.Success? ==>
        r.value == NewBlockRow(newId, documentId, typ, content, position, now) && blocks == old(blocks) + [r.value]
      ensures r.Failure? ==> blocks == old(blocks)
      ensures documents == old(documents) && calls == old(calls) + 1
    {
      calls := calls + 1;
      if ok && !HasId(blocks, newId) && HasDocument(documents, documentId) {
        var row := NewBlockRow(newId, documentId, typ, content, position, now);
        AppendKeepsDistinct(blocks, row);
        AppendBlockKeepsOwners(blocks, documents, row);
        blocks := blocks + [row];
        r := Success(row);
      } else {
        r := Failure;
      }
    }

    /** `from("blocks").update({...patch, updated_at}).eq("id", id)
        .select("*").single()`: fails when no row has the id. */
    method UpdateBlock(id: string, p: BlockPatch, now: string, ok: bool) returns (r: Result<Block>)
      requires Valid()
      modifies this
      ensures Valid()
      ensures r.Success? <==> UpdateBlockSucceeds(old(blocks), id, ok)
      ensures r.Success? ==>
        r.value == ApplyBlockPatch(FindBlock(old(blocks), id).value, p, now)
        && blocks == PatchBlocks(old(blocks), id, p, now)
      ensures r.Failure? ==> blocks == old(blocks)
      ensures documents == old(documents) && calls == old(calls) + 1
    {
      calls := calls + 1;
      var found := FindBlock(blocks, id);
      if ok && found.Some? {
        PatchKeepsDistinct(blocks, id, p, now);
        PatchBlocksKeepsOwners(blocks, documents, id, p, now);
        blocks := PatchBlocks(blocks, id, p, now);
        r := Success(ApplyBlockPatch(found.value, p, now));
      } else {
        r := Failure;
      }
    }

    /** `from("blocks").delete().eq("id", id)`. */
    method DeleteBlock(id: string, ok: bool) returns (r: Outcome)
      requires Valid()
      modifies this
      ensures Valid()
      ensures r == if ok then Pass else Fail
      ensures blocks == if ok then RemoveBlockId(old(blocks), id) else old(blocks)
      ensures documents == old(documents) && calls == old(calls) + 1
    {
      calls := calls + 1;
      if ok {
        FilterKeepsDistinct(blocks, IdIsNot(id));
        RemoveBlockKeepsOwners(blocks, documents, id);
        blocks := RemoveBlockId(blocks, id);
        r := Pass;
      } else {
        r := Fail;
      }
    }
  }
}
