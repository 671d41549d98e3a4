/** A message in the transcript display that the user can click to edit:
    the committed content, an editor buffer shown while editing, and an
    "OUT OF CONTEXT WINDOW" label present exactly when the message is out
    of the context window. */
module EditableMessage {
  import opened Text
  import opened Transcript
  import opened Wrappers

  /** Number of lines in a Tk text widget holding `s`: the line number of
      its `end-1c` index. */
  function EditorLines(s: string): (n: nat)
    ensures n == |Split(s, '\n')|
  {
    SplitLength(s, '\n');
    Count(s, '\n') + 1
  }

  /** Editor height for a text of `lines` lines, `max(4, min(lines, 20))`. */
  function TextHeight(lines: int): (h: int)
    ensures 4 <= h <= 20
    ensures 4 <= lines <= 20 ==> h == lines
    ensures lines < 4 ==> h == 4
    ensures lines > 20 ==> h == 20
  {
    var capped := if lines < 20 then lines else 20;
    if 4 < capped then capped else 4
  }

  class EditableMessage {
    /** The committed text, what the display reports for this message. */
    var content: string
    const role: Role
    var isEditing: bool
    var inContext: bool
    /** Whether the "OUT OF CONTEXT WINDOW" label exists. */
    var hasContextLabel: bool
    /** The text of the editor widget. */
    var buffer: string
    /** The editor's height in lines. */
    var textHeight: int
    /** Whether an `on_edit` callback was given. */
    const hasOnEdit: bool

    ghost predicate Valid()
      reads this
    {
      && hasContextLabel == !inContext
      && 4 <= textHeight <= 20
    }

    constructor (content: string, role: Role, inContext: bool, hasOnEdit: bool)
      ensures Valid()
      ensures this.content == content && this.role == role
      ensures this.inContext == inContext && this.hasOnEdit == hasOnEdit
      ensures !isEditing && buffer == "" && textHeight == 4
    {
      this.content := content;
      this.role := role;
      this.inContext := inContext;
      this.hasOnEdit := hasOnEdit;
      isEditing := false;
      hasContextLabel := !inContext;
      buffer := "";
      textHeight := 4;
    }

    /** Clicking the message: the editor opens on the committed content and
        is sized to it. A click while editing changes nothing. */
    method StartEditing()
      requires Valid()
      modifies this
      ensures Valid()
      ensures old(isEditing) ==> unchanged(this)
      ensures !old(isEditing) ==>
        && isEditing
        && buffer == content
        && textHeight == TextHeight(EditorLines(content))
        && content == old(content)
        && inContext == old(inContext)
        && hasContextLabel == old(hasContextLabel)
    {
      if !isEditing {
        isEditing := true;
        buffer := content;
        AdjustTextHeight();
      }
    }

    /** Keystrokes in the open editor replace its text. */
    method Type(text: string)
      modifies this`buffer
      ensures buffer == text
    {
      buffer := text;
    }

    /** Leaving the editor commits its text with trailing whitespace removed
        and hands the committed text to `on_edit`, once. Outside editing
        nothing happens. */
    method StopEditing() returns (edited: Option<string>)
      requires Valid()
      modifies this
      ensures Valid()
      ensures !old(isEditing) ==> unchanged(this) && edited == None
      ensures old(isEditing) ==>
        && !isEditing
        && content == RStrip(old(buffer))
        && edited == (if hasOnEdit then Some(content) else None)
        && buffer == old(buffer)
        && textHeight == old(textHeight)
        && inContext == old(inContext)
        && hasContextLabel == old(hasContextLabel)
    {
      edited := None;
      if isEditing {
        isEditing := false;
        var newContent := RStrip(buffer);
        content := newContent;
        if hasOnEdit {
          edited := Some(newContent);
        }
      }
    }

    /** Sizes the editor to its text, between 4 and 20 lines. */
    method AdjustTextHeight()
      modifies this`textHeight
      ensures textHeight == TextHeight(EditorLines(buffer))
      ensures 4 <= textHeight <= 20
    {
      textHeight := TextHeight(Count(buffer, '\n') + 1);
    }

    /** Moves the message into or out of the context window: the label
        appears when it leaves and goes when it returns. */
    method UpdateContextStatus(inContext: bool)
      requires Valid()
      modifies this
      ensures Valid()
      ensures this.inContext == inContext && hasContextLabel == !inContext
      ensures old(this.inContext) == inContext ==> unchanged(this)
      ensures content == old(content) && isEditing == old(isEditing)
      ensures buffer == old(buffer) && textHeight == old(textHeight)
    {
      if this.inContext != inContext {
        this.inContext := inContext;
        if inContext {
          if hasContextLabel {
            hasContextLabel := false;
          }
        } else {
          if !hasContextLabel {
            hasContextLabel := true;
          }
        }
      }
    }

    /** The committed content, also while the editor is open: text typed but
        not yet committed is never reported. */
    method GetContent() returns (c: string)
      ensures c == content
    {
      c := content;
    }
  }

  /** Opening and closing the editor without typing commits the content
      with its trailing whitespace removed. */
  method EditWithoutTyping(m: EditableMessage) returns (edited: Option<string>)
    requires m.Valid() && !m.isEditing
    modifies m
    ensures m.Valid() && !m.isEditing
    ensures m.content == RStrip(old(m.content))
    ensures edited == if m.hasOnEdit then Some(m.content) else None
  {
    m.StartEditing();
    edited := m.StopEditing();
  }

  /** A second edit without typing changes nothing more. */
  method EditTwiceWithoutTyping(m: EditableMessage)
    requires m.Valid() && !m.isEditing
    modifies m
    ensures m.Valid() && !m.isEditing
    ensures m.content == RStrip(old(m.content))
  {
    var _ := EditWithoutTyping(m);
    ghost var once := m.content;
    var _ := EditWithoutTyping(m);
    RStripIdempotent(old(m.content));
    assert m.content == once;
  }
}
