# Workspace dashboard: block cache and editor rules

This project models the client-side core of a collaborative notes workspace.
A `DashboardShell` holds four fields for one workspace:

- the list of its documents;
- the selected document;
- `blocksByDocument`, a cache from document id to that document's block list;
- a saving flag.

The editors are built from blocks (paragraphs, headings and to-dos). Every
handler that changes the workspace follows the same steps:

1. It checks the caller's role (owners and editors may write, viewers may not).
2. It may change the local state first (the *optimistic* change).
3. It makes one call to the remote store.
4. It takes in the row the store returns, or re-fetches the document's blocks
   to recover from a failure.

Two editor components feed these handlers:

- The document editor normalizes titles and icons, shows the blocks in
  position order, and picks the position of a new block.
- The block editor builds the `content` payload sent on blur, on a type change
  and on a checkbox toggle.

The model is in plain Dafny modules:

| file | module | what it holds |
|---|---|---|
| `types.dfy` | `Types` | the `documents` and `blocks` rows, roles, block types, content, patches |
| `permissions.dfy` | `Permissions` | the `canEdit` gate |
| `text.dfy` | `Text` | ECMAScript `String.prototype.trim` |
| `block_lists.dfy` | `BlockLists` | the stable sort by position (`Array.prototype.sort` with the position comparator), filtering, and the tie lemmas that make the sort's stability explicit |
| `block_cache.dfy` | `BlockCache` | the pure bodies of the handlers' state updaters; the store's per-document view `ServerBlocksOf` |
| `cache_laws.dfy` | `CacheLaws` | what those updaters preserve, and how they commute with the store's view |
| `cache_sync.dfy` | `CacheSync` | `CacheMatches`: every cached entry equals what the store holds for that document; for each handler, which steps keep it |
| `remote.dfy` | `Remote` | the remote store as an in-memory server class |
| `document_editor.dfy` | `DocumentEditor` | title and icon rules, display order, next position |
| `block_editor.dfy` | `BlockEditor` | content defaults and the payloads the block editor emits |
| `dashboard_shell.dfy` | `Dashboard` | `class DashboardShell`, with one method per handler |

The remote store (`Remote.RemoteStore`) holds the `documents` and `blocks`
tables as sequences, with these rules:

- Document ids and block ids are primary keys.
- Every block must belong to a stored document (a foreign key).
- Deleting a document also deletes its blocks (a cascade).
- It counts the calls it receives.
- Each call takes an `ok` argument that says whether the call gets through.
  Network errors and store errors are not told apart, because the dashboard
  only logs them.
- Ids and timestamps generated by the server or the clock are passed in as
  arguments.

A fetch returns the document's rows sorted by position. Rows at equal
positions come back in stored-row order.

Each handler is one sequential run. An `await` is an ordinary step. Under
these assumptions the model proves, for each handler that writes (creating,
deleting, renaming and re-iconing a document; updating, creating and deleting
a block):

- viewers change nothing, and make no call;
- what the new state is, on every success and failure path;
- the saving flag is false again at the end (`Valid()`).

Selecting a document has no role check in the code
(`dashboard-shell.tsx:86-94`): any role may select, and the fetch it makes
writes nothing to the store.

The model also proves that a cache that matched the store before a handler
matches it after:

- always, for selecting, creating and deleting a document, and for the title
  and icon edits, which leave the cache and the block rows alone;
- for a failed block update or a failed block delete, when the re-fetch
  succeeds: the re-fetched list equals the store's list for the document, and
  the optimistic change is discarded;
- for a successful block update, create or delete, only under the entry
  conditions listed for those handlers under "Left out".

`content` is the record the block editor reads: `{text?: string; checked?: boolean}`.
It is modelled as `Content(text: Option<string>, checked: Option<bool>)`.
The two payload shapes the editor builds are:

- `{text}`, which is `Content(Some(t), None)`;
- `{text, checked}`, which is `Content(Some(t), Some(c))`.

A JSON `null` content reads as `{text: ""}`. That gives the same editor state
as a content with neither key, so it is not a separate case.

Two details of the code shape the model:

- The first block of a new document has the text `"New block"`
  (`dashboard-shell.tsx:123`). A block added later has empty text
  (`dashboard-shell.tsx:276`).
- An upsert of an already listed id replaces the entry in place and does not
  re-sort; `CacheLaws.UpsertInPlaceDoesNotResort` exhibits this. Block creation
  appends and sorts without checking for a listed id, instead of going through
  the upsert.

## Model

| member | source | states |
|---|---|---|
| Types.ApplyBlockPatch | src/components/dashboard/dashboard-shell.tsx:240-242 | the keys present in the patch override type and content; id, document, position and creation time are kept; the row is stamped with the given time |
| Types.ApplyDocumentPatch | src/components/dashboard/dashboard-shell.tsx:180-182 | a title edit sets the title and keeps the icon, an icon edit the reverse; id, workspace, parent, cover image, favourite flag and creation time are kept; the row is stamped |
| Permissions.CanEdit | src/components/dashboard/dashboard-shell.tsx:45 | editing is allowed exactly when the role is not viewer |
| Text.Trim | src/components/document/document-editor.tsx:47 | the result starts and ends with no white space, is a contiguous slice of the input after its leading white space with only white space after it, and is empty exactly when the input is all white space |
| Text.TrimOfTrimmed | src/components/document/document-editor.tsx:47 | a string with no white space at either end is its own trim |
| Text.TrimIsIdempotent | src/components/document/document-editor.tsx:47 | trimming twice is trimming once |
| BlockLists.InsertByPosition | src/components/document/document-editor.tsx:41 | inserting into a sorted list keeps it sorted and adds exactly that block to the multiset |
| BlockLists.SortByPosition | src/components/document/document-editor.tsx:41 | the result is sorted ascending by position and is a permutation of the input |
| BlockLists.Filter | src/components/dashboard/dashboard-shell.tsx:311 | the result is never longer than the input; which blocks it keeps, and in what order, is stated by `FilterMembers` and `FilterAppend` |
| BlockLists.FilterMembers | src/components/dashboard/dashboard-shell.tsx:311 | a filter keeps exactly the blocks of the input that the criterion accepts |
| BlockLists.FilterAppend | src/components/dashboard/dashboard-shell.tsx:311 | filtering distributes over concatenation |
| BlockLists.SortIsStable | src/components/document/document-editor.tsx:41 | for every position, the blocks at that position keep their relative order through the sort |
| BlockLists.SortOfSortedIsIdentity | src/components/document/document-editor.tsx:41 | sorting a sorted list changes nothing |
| BlockLists.SortIsIdempotent | src/components/document/document-editor.tsx:40-43 | sorting the already sorted display copy again changes nothing |
| BlockLists.SortedDeterminedByTies | src/components/document/document-editor.tsx:41 | two sorted lists with the same blocks at every position, in the same order, are equal |
| BlockLists.SortIgnoresPresorting | src/components/dashboard/dashboard-shell.tsx:226 | sorting a list whose front part was already sorted gives the same result as sorting the original list |
| BlockCache.Lookup | src/components/dashboard/dashboard-shell.tsx:217 | `prev[id] ?? []`: the entry when present, otherwise the empty list |
| BlockCache.IndexOfId | src/components/dashboard/dashboard-shell.tsx:218 | `findIndex`: the first index holding the id, or -1 exactly when no entry has it |
| BlockCache.AppendSorted | src/components/dashboard/dashboard-shell.tsx:292 | the result is sorted, has one more entry, and is the old list plus the block as a multiset |
| BlockCache.UpsertList | src/components/dashboard/dashboard-shell.tsx:217-227 | a listed id: replaces the first entry with that id at the same index, same length, every other entry unchanged; a new id: the old list plus the block, sorted |
| BlockCache.Upsert | src/components/dashboard/dashboard-shell.tsx:215-229 | only the block's own document entry changes (created if absent), and it becomes the upserted list |
| BlockCache.PatchBlocks | src/components/dashboard/dashboard-shell.tsx:238-247 | same length; exactly the entries with the id get the patch and the stamp, the others are unchanged |
| BlockCache.RemoveBlockId | src/components/dashboard/dashboard-shell.tsx:307-313 | the result holds exactly the entries whose id differs |
| BlockCache.BlocksOfDocument | src/components/dashboard/dashboard-shell.tsx:70 | the rows kept are exactly those of the document |
| BlockCache.BlocksNotOfDocument | src/components/dashboard/dashboard-shell.tsx:149 | the rows a document delete leaves are exactly those of other documents |
| BlockCache.ServerBlocksOf | src/components/dashboard/dashboard-shell.tsx:67-71 | the document's rows sorted by position: sorted, exactly the document's rows, a permutation of them |
| BlockCache.FindBlock | src/components/dashboard/dashboard-shell.tsx:249-254 | `.single()` on an id: a row exactly when some row has the id, and then the first such row |
| BlockCache.FindDocument | src/components/dashboard/dashboard-shell.tsx:56-59 | `find`: a document exactly when one has the id, and then the first such document |
| BlockCache.UpdateDocuments | src/components/dashboard/dashboard-shell.tsx:199-201 | same length; exactly the documents with the id get the patch and the stamp |
| BlockCache.RemoveDocumentId | src/components/dashboard/dashboard-shell.tsx:158 | the result holds exactly the documents whose id differs, so none has the id, and is never longer than the input |
| BlockCache.SelectionAfterDelete | src/components/dashboard/dashboard-shell.tsx:159-161 | a selection of another document is kept; a selection of the deleted one moves to the head of the remaining list, or to none |
| BlockCache.InitialSelection | src/components/dashboard/dashboard-shell.tsx:35-37 | the initial id if given, else the first document's id, else none |
| BlockCache.InitialCache | src/components/dashboard/dashboard-shell.tsx:38-43 | with a non-empty initial id, exactly one entry holding the initial blocks; otherwise empty |
| CacheLaws.FilterKeepsSorted | src/components/dashboard/dashboard-shell.tsx:311 | removing blocks keeps a list in position order |
| CacheLaws.FilterKeepsDistinct | src/components/dashboard/dashboard-shell.tsx:311 | removing blocks keeps ids distinct |
| CacheLaws.FiltersCommute | src/components/dashboard/dashboard-shell.tsx:311 | two filters in either order give the same list |
| CacheLaws.SortFilterCommute | src/components/dashboard/dashboard-shell.tsx:67-71 | filtering then sorting equals sorting then filtering |
| CacheLaws.InsertKeepsDistinct | src/components/dashboard/dashboard-shell.tsx:292 | inserting a block with a new id into a list with distinct ids keeps them distinct |
| CacheLaws.SortKeepsDistinct | src/components/dashboard/dashboard-shell.tsx:226 | sorting keeps ids distinct |
| CacheLaws.AppendKeepsDistinct | src/components/dashboard/dashboard-shell.tsx:271-280 | a row with an unused id keeps the table's ids distinct |
| CacheLaws.PatchKeepsDistinct | src/components/dashboard/dashboard-shell.tsx:240-242 | a patch keeps ids distinct |
| CacheLaws.PatchKeepsSorted | src/components/dashboard/dashboard-shell.tsx:240-242 | a patch keeps positions, so it keeps position order |
| CacheLaws.UpsertKeepsSorted | src/components/dashboard/dashboard-shell.tsx:219-222 | the in-place branch keeps a sorted list sorted when the row keeps the position of the entry it replaces |
| CacheLaws.UpsertInPlaceDoesNotResort | src/components/dashboard/dashboard-shell.tsx:219-222 | a replacement with a moved position is stored in place and leaves the list out of order |
| CacheLaws.PatchOfAbsentId | src/components/dashboard/dashboard-shell.tsx:240-242 | patching an id no entry has changes nothing |
| CacheLaws.PatchFilterCommute | src/components/dashboard/dashboard-shell.tsx:238-254 | patching a table and then taking one document's rows equals taking them and then patching |
| CacheLaws.SortPatchCommute | src/components/dashboard/dashboard-shell.tsx:238-254 | sorting and patching commute |
| CacheLaws.RemoveDocumentIdAppend | src/components/dashboard/dashboard-shell.tsx:158 | removing a document id distributes over concatenation, so the remaining documents keep their order |
| CacheLaws.RemoveDocumentIdAfterRun | src/components/dashboard/dashboard-shell.tsx:158-160 | after a run of documents with the removed id, the first document with another id heads the remaining list, followed by what remains of the rest: the document selected next |
| CacheLaws.RemoveDocumentIdEmpty | src/components/dashboard/dashboard-shell.tsx:158-161 | nothing remains exactly when every document has the removed id, which is when a deleted selection becomes none |
| CacheLaws.AppendDocumentKeepsDistinct | src/components/dashboard/dashboard-shell.tsx:99-107 | a new document row with an unused id keeps the document ids distinct |
| CacheLaws.RemoveDocumentKeepsDistinct | src/components/dashboard/dashboard-shell.tsx:149 | deleting a document keeps the remaining ids distinct |
| CacheLaws.UpdateDocumentsKeepsDistinct | src/components/dashboard/dashboard-shell.tsx:184-187 | a title or icon change keeps the document ids distinct |
| CacheLaws.FindDocumentOfDistinct | src/components/dashboard/dashboard-shell.tsx:56-59 | in a list with distinct ids, `find` returns the one document with that id |
| CacheSync.ServerBlocksWellFormed | src/components/dashboard/dashboard-shell.tsx:67-71 | a fetch returns a sorted list with distinct ids |
| CacheSync.MatchingCacheIsWellFormed | src/components/dashboard/dashboard-shell.tsx:22 | every entry of a matching cache is sorted and has distinct ids |
| CacheSync.ServerOfUnusedDocument | src/components/dashboard/dashboard-shell.tsx:129-134 | a document with no rows fetches as the empty list |
| CacheSync.ServerAfterRemove | src/components/dashboard/dashboard-shell.tsx:315 | after a row delete, a document's fetch is its old fetch without that id |
| CacheSync.ServerAfterPatch | src/components/dashboard/dashboard-shell.tsx:249-254 | after a row update, a document's fetch is its old fetch with the patch applied |
| CacheSync.ServerAfterAppend | src/components/dashboard/dashboard-shell.tsx:271-280 | after a row insert, its document's fetch is the old fetch with the row added in order; other documents are unchanged |
| CacheSync.ServerAfterDocumentDelete | src/components/dashboard/dashboard-shell.tsx:149 | the cascade of a document delete leaves every other document's fetch unchanged |
| CacheSync.FetchKeepsMatch | src/components/dashboard/dashboard-shell.tsx:78-81 | storing a fetch result in one entry keeps a cache matching whose other entries matched |
| CacheSync.RefetchKeepsMatch | src/components/dashboard/dashboard-shell.tsx:256-258 | a failed write that changed one entry locally, followed by a successful re-fetch of it, leaves the cache matching |
| CacheSync.DeleteBlockKeepsMatch | src/components/dashboard/dashboard-shell.tsx:300-324 | the optimistic removal from the block's own document and the store's delete together keep the cache matching |
| CacheSync.UpdateBlockKeepsMatch | src/components/dashboard/dashboard-shell.tsx:231-265 | the optimistic merge into the selected document, the store's update and the upsert of the returned row together keep the cache matching |
| CacheSync.CreateBlockKeepsMatch | src/components/dashboard/dashboard-shell.tsx:267-298 | the store's insert and the sorted append into a matching entry keep the cache matching |
| CacheSync.NewDocumentKeepsMatch | src/components/dashboard/dashboard-shell.tsx:129-134 | an empty entry for a new document without rows keeps the cache matching |
| CacheSync.NewDocumentWithBlockKeepsMatch | src/components/dashboard/dashboard-shell.tsx:135-140 | the entry `[block]` for a new document, with the block inserted, keeps the cache matching |
| CacheSync.DeleteDocumentKeepsMatch | src/components/dashboard/dashboard-shell.tsx:165-170 | dropping a document's entry while the store cascades its delete keeps the cache matching |
| Remote.NewDocumentRow | src/components/dashboard/dashboard-shell.tsx:99-107 | the created document row carries the given workspace, title and icon, with no parent and not a favourite |
| Remote.NewBlockRow | src/components/dashboard/dashboard-shell.tsx:271-280 | the created block row carries the given document, type, content and position |
| Remote.RemoteStore.ListBlocks | src/components/dashboard/dashboard-shell.tsx:67-71 | changes no row; returns the document's rows in position order, or fails |
| Remote.RemoteStore.InsertDocument | src/components/dashboard/dashboard-shell.tsx:99-107 | succeeds exactly when the call gets through and the id is unused, and then appends the new row and returns it; document ids stay distinct |
| Remote.RemoteStore.DeleteDocument | src/components/dashboard/dashboard-shell.tsx:149 | on success removes the document and all its blocks |
| Remote.RemoteStore.UpdateDocument | src/components/dashboard/dashboard-shell.tsx:184-187 | on success patches the documents with the id; blocks unchanged |
| Remote.RemoteStore.InsertBlock | src/components/dashboard/dashboard-shell.tsx:118-127 | succeeds exactly when the call gets through, the id is unused and the document exists, and then appends the new row and returns it |
| Remote.RemoteStore.UpdateBlock | src/components/dashboard/dashboard-shell.tsx:249-254 | returns a row exactly when the call gets through and a row has the id: the patched row, with the table patched |
| Remote.RemoteStore.DeleteBlock | src/components/dashboard/dashboard-shell.tsx:315 | on success removes every row with the id |
| DocumentEditor.InitialTitle | src/components/document/document-editor.tsx:32 | the title column is not nullable, so the field starts at the stored title and the `?? ""` fallback never applies |
| DocumentEditor.InitialIcon | src/components/document/document-editor.tsx:33 | the stored icon, or the page icon when there is none |
| DocumentEditor.TrimOr | src/components/document/document-editor.tsx:47 | the result is never empty and has no white space at either end; it is the fallback exactly for an all-white-space input, otherwise the trimmed input |
| DocumentEditor.TrimOrIsIdempotent | src/components/document/document-editor.tsx:63 | normalizing a normalized value changes nothing |
| DocumentEditor.NormalizeTitle | src/components/document/document-editor.tsx:47 | the trimmed title, or "Untitled" for a blank one; never empty |
| DocumentEditor.NormalizeIcon | src/components/document/document-editor.tsx:63 | the trimmed icon, or the page icon for a blank one; never empty |
| DocumentEditor.NormalizeTitleIsIdempotent | src/components/document/document-editor.tsx:45-50 | a second blur emits the same title |
| DocumentEditor.NormalizeIconIsIdempotent | src/components/document/document-editor.tsx:61-66 | a second blur emits the same icon |
| DocumentEditor.TitleBlur | src/components/document/document-editor.tsx:45-50 | a title is emitted exactly when the caller can edit, and it is the normalized, non-empty title |
| DocumentEditor.IconBlur | src/components/document/document-editor.tsx:61-66 | an icon is emitted exactly when the caller can edit, and it is the normalized, non-empty icon |
| DocumentEditor.BlockList | src/components/document/document-editor.tsx:40-43 | the shown list is sorted, a permutation of the blocks, and keeps the given order among equal positions |
| DocumentEditor.MaxPosition | src/components/document/document-editor.tsx:109-112 | the fold is at least its start and at least every position it passes |
| DocumentEditor.MaxPositionIsAttained | src/components/document/document-editor.tsx:109-112 | the fold equals its start or one of the positions |
| DocumentEditor.MaxPositionOfPermutation | src/components/document/document-editor.tsx:109-112 | the maximum does not depend on the order of the list |
| DocumentEditor.NextPosition | src/components/document/document-editor.tsx:108-113 | the new position is above every block's and at least 1 |
| DocumentEditor.NextPositionIsLeast | src/components/document/document-editor.tsx:108-113 | the new position is 1 or one past some block's position, so no smaller whole number of at least 1 lies above every block |
| DocumentEditor.NextPositionOfEmpty | src/components/document/document-editor.tsx:109-113 | an empty document asks for position 1 |
| DocumentEditor.AddBlockRequest | src/components/document/document-editor.tsx:103-113 | a request exists exactly when the caller can edit; it names the document and a position above every block's, which is 1 for an empty document |
| BlockEditor.InitialState | src/components/document/block-editor.tsx:26-28 | the text defaults to "" and the checkbox to false when the content lacks them |
| BlockEditor.TextAndChecked | src/components/document/block-editor.tsx:38-43 | the `{text, checked}` payload carries the current text and checkbox value |
| BlockEditor.TextOnly | src/components/document/block-editor.tsx:50-55 | the `{text}` payload carries the current text and no checkbox key |
| BlockEditor.BlurUpdate | src/components/document/block-editor.tsx:36-44 | an update is emitted exactly when the caller can edit: no type, content `{text, checked}` from the current state |
| BlockEditor.TypeChangeUpdate | src/components/document/block-editor.tsx:46-57 | an update is emitted exactly when the caller can edit: the new type and the current text, with `checked` present exactly for a to-do |
| BlockEditor.CheckboxToggle | src/components/document/block-editor.tsx:87-95 | the state takes the new checkbox value and keeps the text; the update carries both and no type |
| BlockEditor.BlurRoundTrip | src/components/document/block-editor.tsx:36-44 | the stored content reads back as the state that emitted it |
| BlockEditor.TypeChangeRoundTrip | src/components/document/block-editor.tsx:46-57 | the stored row has the new type, and its content reads back as the state, with the checkbox cleared for a heading or a paragraph |
| BlockEditor.CheckboxRoundTrip | src/components/document/block-editor.tsx:87-95 | the stored content reads back as the toggled state |
| Dashboard.FirstBlockContent | src/components/dashboard/dashboard-shell.tsx:123 | a new document's first block has the text "New block" and no checkbox |
| Dashboard.EmptyBlockContent | src/components/dashboard/dashboard-shell.tsx:276 | an added block has empty text and no checkbox |
| Dashboard.AppendPastEnd | src/components/dashboard/dashboard-shell.tsx:292 | a block placed after every listed block lands at the end of the sorted list |
| Dashboard.AddedBlockShowsLast | src/components/document/document-editor.tsx:108-113 | the block created at the requested position shows last in the editor |
| Dashboard.DashboardShell.constructor | src/components/dashboard/dashboard-shell.tsx:34-44 | the initial list, selection and cache; not saving |
| Dashboard.DashboardShell.ReceiveInitialBlocks | src/components/dashboard/dashboard-shell.tsx:47-54 | with a non-empty initial id only that entry is replaced; otherwise nothing changes |
| Dashboard.DashboardShell.SelectedDocument | src/components/dashboard/dashboard-shell.tsx:56-59 | a document exactly when one listed document has the selected id, and then one with that id |
| Dashboard.DashboardShell.SelectedBlocks | src/components/dashboard/dashboard-shell.tsx:61-63 | the selected document's entry, or the empty list when there is no selected document or no entry |
| Dashboard.DashboardShell.FetchBlocks | src/components/dashboard/dashboard-shell.tsx:65-84 | on success only the document's entry changes and becomes the store's ordered list; on failure nothing changes |
| Dashboard.DashboardShell.HandleSelectDocument | src/components/dashboard/dashboard-shell.tsx:86-94 | always selects; fetches exactly when the document has no entry; keeps the cache matching |
| Dashboard.DashboardShell.HandleCreateDocument | src/components/dashboard/dashboard-shell.tsx:96-143 | viewers change nothing; a failed create changes nothing; on success the new "Untitled" document is listed first and selected, and its entry is the "New block" paragraph at position 1 or, if that insert fails, empty; keeps the cache matching |
| Dashboard.DashboardShell.HandleDeleteDocument | src/components/dashboard/dashboard-shell.tsx:145-175 | viewers and failures change nothing; on success the document leaves the local list, the cache and the store's documents, its blocks leave the store, and a selection of it moves to the head of the remaining list (the first other document, by `RemoveDocumentIdAfterRun`) or none; keeps the cache matching |
| Dashboard.DashboardShell.EditDocument | src/components/dashboard/dashboard-shell.tsx:177-213 | viewers change nothing; otherwise the local list is patched whatever the store answers (no rollback) |
| Dashboard.DashboardShell.HandleUpdateDocumentTitle | src/components/dashboard/dashboard-shell.tsx:177-194 | viewers change nothing; only the documents with the id get the new title, kept even when the store fails |
| Dashboard.DashboardShell.HandleUpdateDocumentIcon | src/components/dashboard/dashboard-shell.tsx:196-213 | viewers change nothing; only the documents with the id get the new icon, kept even when the store fails |
| Dashboard.DashboardShell.UpsertBlockState | src/components/dashboard/dashboard-shell.tsx:215-229 | the cache becomes the upsert of the row; nothing else changes |
| Dashboard.DashboardShell.HandleUpdateBlock | src/components/dashboard/dashboard-shell.tsx:231-265 | no selection or a viewer changes nothing; otherwise the selected list is merged; on success the returned row is upserted; on failure a successful re-fetch makes the selected entry equal the store's list, discarding the merge; keeps the cache matching |
| Dashboard.DashboardShell.HandleCreateBlock | src/components/dashboard/dashboard-shell.tsx:267-298 | viewers change nothing; on success the new row joins the document's entry in position order; on failure the cache is unchanged; keeps the cache matching |
| Dashboard.DashboardShell.AddCreatedBlock | src/components/dashboard/dashboard-shell.tsx:288-294 | only the row's document entry changes: the old entry plus the row, sorted |
| Dashboard.DashboardShell.HandleDeleteBlock | src/components/dashboard/dashboard-shell.tsx:300-324 | no selection or a viewer changes nothing; otherwise the id leaves the selected list; on failure a successful re-fetch restores the store's list; keeps the cache matching |

## Left out

- Concurrency is not modelled: handlers overlapping across their awaits, the races that leaves on the saving flag, React's batching of state updates, and stale closures. The delete handler reads the selection captured when it was created (`dashboard-shell.tsx:159`); the model uses the current selection.
- Rendering, the sidebar and top bar, the sign-in and sign-out flows, and the page that loads the workspace are not modelled. The role and the initial documents and blocks are inputs.
- The query builder of the store client is not modelled. The store is an in-memory server with a primary key, a foreign key and a cascading delete, which matches the schema the handlers rely on.
- The server's order for rows at equal positions is unspecified. The model returns them in stored-row order.
- Positions are whole numbers, not JavaScript floating-point numbers. Dafny's numeric comparison stands in for `Number(a.position) - Number(b.position)`.
- Timestamps from `new Date().toISOString()` are opaque strings passed in. The handlers that stamp a row twice (once locally, once in the request) take two of them.
- Error messages are only logged to the console, so they are not modelled. The icon field's two-character input limit is a rendering attribute and is also left out.
- Document ids that collide with JavaScript object prototype keys are not modelled. The cache is a Dafny `map`.
- `content` values of other JSON shapes, such as a string or an array, are not modelled. The block editor reads every content as the optional-key record.
- The update payload is limited to `type` and `content`, the only keys the editors send. A payload that changes `position` would let the in-place upsert leave a list out of order (`CacheLaws.UpsertInPlaceDoesNotResort`).
- Dashboard.DashboardShell.HandleUpdateBlock: cache agreement after a successful update is proved only when the selected document and the block's own document have entries. Without an entry, the merge stores `[]` for the selected document and the upsert stores `[row]` for the block's document. That entry may hold fewer rows than the store, and a later selection does not re-fetch a document that has an entry (`dashboard-shell.tsx:89`). The editor offers only blocks from the selected document's entry, so it never asks for such an update.
- Dashboard.DashboardShell.HandleCreateBlock: cache agreement is proved only when the document's entry matches the store (an absent entry counts as matching for a document with no rows), because the handler appends to whatever the entry holds.
- Dashboard.DashboardShell.HandleDeleteBlock: cache agreement after a successful delete is proved only when the selected document has an entry and the id belongs only to that document, because the handler removes the block from the selected document's list.
- Dashboard.DashboardShell.HandleUpdateBlock and HandleDeleteBlock: after a failed write whose re-fetch also fails, the optimistic change stays in the cache; the model states that state but proves no agreement for it.
