/** The rules of the document editor: the title and icon it shows and emits,
    the order it shows blocks in, and the position it asks for when a block
    is added. */
module DocumentEditor {
  import opened Types
  import opened BlockLists
  import opened Text

  /** The title a blank title falls back to. */
  const DefaultTitle: string := "Untitled"

  /** The page icon shown, and emitted, when there is none. */
  const DefaultIcon: string := "\U{1F4C4}"

  /** The title field's initial value, `document.title ?? ""`: the title
      column is not nullable, so it is the stored title itself. */
  function InitialTitle(d: Document): (r: string)
    ensures r == d.title
  {
    d.title
  }

  /** The icon field's initial value, `document.icon ?? "📄"`. */
  function InitialIcon(d: Document): (r: string)
    ensures d.icon.Some? ==> r == d.icon.value
    ensures d.icon.None? ==> r == DefaultIcon
  {
    d.icon.GetOr(DefaultIcon)
  }

  /** `value.trim() || fallback`, for a non-blank fallback. */
  function TrimOr(value: string, fallback: string): (r: string)
    requires fallback != [] && Trimmed(fallback)
    ensures r != [] && Trimmed(r)
    ensures AllWhitespace(value) ==> r == fallback
    ensures !AllWhitespace(value) ==> r == Trim(value)
  {
    var t := Trim(value);
    if t == [] then fallback else t
  }

  /** Normalizing an already normalized value changes nothing. */
  lemma TrimOrIsIdempotent(value: string, fallback: string)
    requires fallback != [] && Trimmed(fallback)
    ensures TrimOr(TrimOr(value, fallback), fallback) == TrimOr(value, fallback)
  {
    TrimOfTrimmed(TrimOr(value, fallback));
  }

  /** `title.trim() || "Untitled"`: a non-blank title, trimmed; never
      empty. */
  function NormalizeTitle(title: string): (r: string)
    ensures r != [] && Trimmed(r)
    ensures r == if AllWhitespace(title) then DefaultTitle else Trim(title)
  {
    TrimOr(title, DefaultTitle)
  }

  /** `icon.trim() || "📄"`. */
  function NormalizeIcon(icon: string): (r: string)
    ensures r != [] && Trimmed(r)
    ensures r == if AllWhitespace(icon) then DefaultIcon else Trim(icon)
  {
    TrimOr(icon, DefaultIcon)
  }

  /** A normalized title is its own normalization, so a second blur emits
      the same title again. */
  lemma NormalizeTitleIsIdempotent(title: string)
    ensures NormalizeTitle(NormalizeTitle(title)) == NormalizeTitle(title)
  {
    TrimOrIsIdempotent(title, DefaultTitle);
  }

  lemma NormalizeIconIsIdempotent(icon: string)
    ensures NormalizeIcon(NormalizeIcon(icon)) == NormalizeIcon(icon)
  {
    TrimOrIsIdempotent(icon, DefaultIcon);
  }

  /** The title a blur emits, if any: viewers emit nothing. */
  function TitleBlur(canEdit: bool, title: string): (r: Option<string>)
    ensures r.Some? <==> canEdit
    ensures r.Some? ==> r.value == NormalizeTitle(title) && r.value != []
  {
    if canEdit then Some(NormalizeTitle(title)) else None
  }

  /** The icon a blur emits, if any: viewers emit nothing. */
  function IconBlur(canEdit: bool, icon: string): (r: Option<string>)
    ensures r.Some? <==> canEdit
    ensures r.Some? ==> r.value == NormalizeIcon(icon) && r.value != []
  {
    if canEdit then Some(NormalizeIcon(icon)) else None
  }

  /** `blockList`: the blocks in position order, equal positions in their
      given order, built on a copy. */
  function BlockList(blocks: seq<Block>): (r: seq<Block>)
    ensures Sorted(r) && multiset(r) == multiset(blocks)
    ensures forall p :: AtPosition(r, p) == AtPosition(blocks, p)
  {
    forall p ensures AtPosition(SortByPosition(blocks), p) == AtPosition(blocks, p) {
      SortIsStable(blocks, p);
    }
    SortByPosition(blocks)
  }

  /** `list.reduce((acc, block) => Math.max(acc, block.position), acc)`: at
      least its start and every position it passes. */
  function MaxPosition(acc: int, list: seq<Block>): (r: int)
    ensures acc <= r
    ensures forall k :: 0 <= k < |list| ==> list[k].position <= r
    decreases |list|
  {
    if list == [] then acc
    else
      var r := MaxPosition(if list[0].position > acc then list[0].position else acc, list[1..]);
      assert forall k :: 1 <= k < |list| ==> list[k] == list[1..][k - 1];
      r
  }

  /** The fold is its start or one of the positions it passes. */
  lemma {:induction false} MaxPositionIsAttained(acc: int, list: seq<Block>)
    ensures MaxPosition(acc, list) == acc
         || exists k :: 0 <= k < |list| && MaxPosition(acc, list) == list[k].position
    decreases |list|
  {
    if list != [] {
      var acc' := if list[0].position > acc then list[0].position else acc;
      var t := list[1..];
      MaxPositionIsAttained(acc', t);
      if MaxPosition(acc', t) != acc' {
        var k :| 0 <= k < |t| && MaxPosition(acc', t) == t[k].position;
        assert list[k + 1] == t[k];
      }
    }
  }

  /** The order of the list does not change its maximum. */
  lemma MaxPositionOfPermutation(a: seq<Block>, b: seq<Block>)
    requires multiset(a) == multiset(b)
    ensures MaxPosition(0, a) == MaxPosition(0, b)
  {
    MaxPositionIsAttained(0, a);
    MaxPositionIsAttained(0, b);
    forall k | 0 <= k < |a| ensures a[k].position <= MaxPosition(0, b) {
      assert a[k] in multiset(b);
      var j :| 0 <= j < |b| && b[j] == a[k];
    }
    forall k | 0 <= k < |b| ensures b[k].position <= MaxPosition(0, a) {
      assert b[k] in multiset(a);
      var j :| 0 <= j < |a| && a[j] == b[k];
    }
  }

  /** The position "Add block" asks for: one past the largest position of the
      shown list, counting from 0; it lies after every block and is at
      least 1. */
  function NextPosition(blocks: seq<Block>): (r: int)
    ensures r >= 1
    ensures forall k :: 0 <= k < |blocks| ==> blocks[k].position < r
  {
    MaxPositionOfPermutation(BlockList(blocks), blocks);
    MaxPosition(0, BlockList(blocks)) + 1
  }

  /** The new position is the smallest whole number past every block that is
      at least 1: 1 itself, or one past some block. */
  lemma NextPositionIsLeast(blocks: seq<Block>)
    ensures NextPosition(blocks) == 1
         || exists k :: 0 <= k < |blocks| && NextPosition(blocks) == blocks[k].position + 1
  {
    MaxPositionOfPermutation(BlockList(blocks), blocks);
    MaxPositionIsAttained(0, blocks);
  }

  /** An empty document asks for position 1. */
  lemma NextPositionOfEmpty()
    ensures NextPosition([]) == 1
  {
  }

  /** What "Add block" asks the dashboard for: the document and the new
      position. Viewers have no such button. */
  function AddBlockRequest(canEdit: bool, d: Document, blocks: seq<Block>): (r: Option<(string, int)>)
    ensures r.Some? <==> canEdit
    ensures r.Some? ==> r.value.0 == d.id
    ensures r.Some? ==> forall k :: 0 <= k < |blocks| ==> blocks[k].position < r.value.1
    ensures r.Some? && blocks == [] ==> r.value.1 == 1
  {
    if canEdit then Some((d.id, NextPosition(blocks))) else None
  }
}
