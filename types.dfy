/** Rows of the workspace database that the dashboard caches, and the small
    wrapper types the model uses for absent values and remote-call outcomes. */
module Types {

  /** A value that may be absent (a nullable column, `undefined`, `null`). */
  datatype Option<+T> = None | Some(value: T) {
    /** The value, or `default` when absent: the `??` operator. */
    function GetOr(default: T): T {
      match this
      case Some(v) => v
      case None => default
    }
  }

  /** What a remote call returns. The error message is only logged by the
      dashboard, so it is not carried. */
  datatype Result<+T> = Success(value: T) | Failure {
    predicate IsOk() { Success? }
  }

  /** A remote call that returns no row. */
  datatype Outcome = Pass | Fail

  /** The caller's role in the workspace. */
  datatype Role = Owner | Editor | Viewer

  /** The `type` column of a block. */
  datatype BlockType = Paragraph | Heading | Todo

  /** The `content` JSON column of a block, as the block editor reads it:
      an object with an optional `text` and an optional `checked` key.
      `{text}` is the shape of paragraph and heading content, `{text, checked}`
      the shape of to-do content. */
  datatype Content = Content(text: Option<string>, checked: Option<bool>)

  /** A row of the `blocks` table. `position` is a whole number here. */
  datatype Block = Block(
    id: string,
    documentId: string,
    typ: BlockType,
    content: Content,
    position: int,
    createdAt: string,
    updatedAt: string)

  /** A row of the `documents` table. */
  datatype Document = Document(
    id: string,
    workspaceId: string,
    parentId: Option<string>,
    title: string,
    icon: Option<string>,
    coverImageUrl: Option<string>,
    isFavorite: bool,
    createdAt: string,
    updatedAt: string)

  /** The partial block row the editors send: the keys they may set. */
  datatype BlockPatch = BlockPatch(typ: Option<BlockType>, content: Option<Content>)

  /** The partial document row a title or icon edit sends. */
  datatype DocumentPatch = SetTitle(title: string) | SetIcon(icon: string)

  /** `{ ...block, ...patch, updated_at: now }`: the keys present in the patch
      override the row, and the row is stamped. */
  function ApplyBlockPatch(b: Block, p: BlockPatch, now: string): (r: Block)
    ensures r.id == b.id && r.documentId == b.documentId && r.position == b.position
    ensures r.createdAt == b.createdAt && r.updatedAt == now
    ensures r.typ == (if p.typ.Some? then p.typ.value else b.typ)
    ensures r.content == (if p.content.Some? then p.content.value else b.content)
  {
    b.(typ := p.typ.GetOr(b.typ), content := p.content.GetOr(b.content), updatedAt := now)
  }

  /** `{ ...doc, title, updated_at: now }` or `{ ...doc, icon, updated_at: now }`. */
  function ApplyDocumentPatch(d: Document, p: DocumentPatch, now: string): (r: Document)
    ensures r.id == d.id && r.workspaceId == d.workspaceId && r.parentId == d.parentId
    ensures r.coverImageUrl == d.coverImageUrl && r.isFavorite == d.isFavorite && r.createdAt == d.createdAt
    ensures r.updatedAt == now
    ensures p.SetTitle? ==> r.title == p.title && r.icon == d.icon
    ensures p.SetIcon? ==> r.icon == Some(p.icon) && r.title == d.title
  {
    match p
    case SetTitle(t) => d.(title := t, updatedAt := now)
    case SetIcon(i) => d.(icon := Some(i), updatedAt := now)
  }

  /** JavaScript truthiness of an optional id: `null` and `""` are both falsy. */
  predicate Truthy(id: Option<string>) {
    id.Some? && id.value != ""
  }
}
