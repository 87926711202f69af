/** The rules of the block editor: the text and checkbox state it starts
    from, and the updates it emits on blur, on a type change and on a
    checkbox toggle. */
module BlockEditor {
  import opened Types

  /** The editor's local state: the text being edited and the checkbox. */
  datatype EditorState = EditorState(value: string, checked: bool)

  /** `content.text ?? ""` and `content.checked ?? false`. A JSON `null`
      content reads as `{text: ""}`, which gives the same state as a content
      with neither key. */
  function InitialState(content: Content): (r: EditorState)
    ensures content.text.Some? ==> r.value == content.text.value
    ensures content.text.None? ==> r.value == ""
    ensures content.checked.Some? ==> r.checked == content.checked.value
    ensures content.checked.None? ==> !r.checked
  {
    EditorState(content.text.GetOr(""), content.checked.GetOr(false))
  }

  /** The `{text, checked}` content. */
  function TextAndChecked(s: EditorState): (r: Content)
    ensures r.text == Some(s.value) && r.checked == Some(s.checked)
  {
    Content(Some(s.value), Some(s.checked))
  }

  /** The `{text}` content. */
  function TextOnly(s: EditorState): (r: Content)
    ensures r.text == Some(s.value) && r.checked.None?
  {
    Content(Some(s.value), None)
  }

  /** The update a blur emits: the current text and checkbox, whatever the
      block's type, and no type. Viewers emit nothing. */
  function BlurUpdate(canEdit: bool, s: EditorState): (r: Option<BlockPatch>)
    ensures r.Some? <==> canEdit
    ensures r.Some? ==> r.value.typ.None? && r.value.content == Some(TextAndChecked(s))
  {
    if canEdit then Some(BlockPatch(None, Some(TextAndChecked(s)))) else None
  }

  /** The update a type change emits: the new type, with `{text, checked}`
      for a to-do and `{text}` for a heading or a paragraph. Viewers emit
      nothing. */
  function TypeChangeUpdate(canEdit: bool, s: EditorState, next: BlockType): (r: Option<BlockPatch>)
    ensures r.Some? <==> canEdit
    ensures r.Some? ==> r.value.typ == Some(next) && r.value.content.Some?
    ensures r.Some? ==> r.value.content.value.text == Some(s.value)
    ensures r.Some? ==> (r.value.content.value.checked.Some? <==> next == Todo)
    ensures r.Some? && next == Todo ==> r.value.content.value.checked == Some(s.checked)
  {
    if !canEdit then None
    else
      var content := match next
        case Todo => TextAndChecked(s)
        case Heading => TextOnly(s)
        case Paragraph => TextOnly(s);
      Some(BlockPatch(Some(next), Some(content)))
  }

  /** A checkbox toggle: the new state and the update it emits, the unchanged
      text with the new checkbox value. The handler has no permission check
      of its own; the checkbox is disabled for viewers. */
  function CheckboxToggle(s: EditorState, newChecked: bool): (r: (EditorState, BlockPatch))
    ensures r.0 == s.(checked := newChecked)
    ensures r.1.typ.None? && r.1.content == Some(Content(Some(s.value), Some(newChecked)))
  {
    var next := s.(checked := newChecked);
    (next, BlockPatch(None, Some(TextAndChecked(next))))
  }

  /** The content a blur stores reads back as the state that emitted it. */
  lemma BlurRoundTrip(s: EditorState, b: Block, now: string)
    ensures InitialState(ApplyBlockPatch(b, BlurUpdate(true, s).value, now).content) == s
  {
  }

  /** The content a type change stores reads back as the state that emitted
      it, except that a heading or a paragraph forgets the checkbox. */
  lemma TypeChangeRoundTrip(s: EditorState, next: BlockType, b: Block, now: string)
    ensures
      var stored := ApplyBlockPatch(b, TypeChangeUpdate(true, s, next).value, now);
      stored.typ == next
      && InitialState(stored.content) == if next == Todo then s else s.(checked := false)
  {
  }

  /** The content a toggle stores reads back as the toggled state. */
  lemma CheckboxRoundTrip(s: EditorState, newChecked: bool, b: Block, now: string)
    ensures InitialState(ApplyBlockPatch(b, CheckboxToggle(s, newChecked).1, now).content)
         == CheckboxToggle(s, newChecked).0
  {
  }
}
