/** The earlier message widget, which keeps its committed text in its label
    and reports the editor's raw text while editing. Nothing in the client
    creates it any more. */
module MessageWidget {
  import opened Text
  import opened Transcript
  import opened Wrappers
  import Editable = EditableMessage

  class EditableMessage {
    /** The header above the message, "You", "Claude" or "System". */
    const header: string
    const role: Role
    /** The text of the message label: the committed content. */
    var labelText: string
    var isEditing: bool
    /** The text of the editor widget. */
    var editor: string
    var textHeight: int
    const hasOnEdit: bool

    ghost predicate Valid()
      reads this
    {
      4 <= textHeight <= 20
    }

    constructor (message: string, role: Role, hasOnEdit: bool)
      ensures Valid()
      ensures header == RoleLabel(role) && this.role == role
      ensures labelText == message && this.hasOnEdit == hasOnEdit
      ensures !isEditing && editor == "" && textHeight == 4
    {
      header := RoleLabel(role);
      this.role := role;
      labelText := message;
      this.hasOnEdit := hasOnEdit;
      isEditing := false;
      editor := "";
      textHeight := 4;
    }

    /** Clicking the label opens the editor on the label's text. */
    method StartEditing()
      requires Valid()
      modifies this
      ensures Valid()
      ensures old(isEditing) ==> unchanged(this)
      ensures !old(isEditing) ==>
        && isEditing
        && editor == labelText
        && labelText == old(labelText)
        && textHeight == Editable.TextHeight(Editable.EditorLines(labelText))
    {
      if !isEditing {
        isEditing := true;
        editor := labelText;
        AdjustTextHeight();
      }
    }

    /** Keystrokes in the open editor replace its text. */
    method Type(text: string)
      modifies this`editor
      ensures editor == text
    {
      editor := text;
    }

    /** Leaving the editor puts its text, trailing whitespace removed, into
        the label and hands it to `on_edit` once; outside editing nothing
        happens. */
    method StopEditing() returns (edited: Option<string>)
      requires Valid()
      modifies this
      ensures Valid()
      ensures !old(isEditing) ==> unchanged(this) && edited == None
      ensures old(isEditing) ==>
        && !isEditing
        && labelText == RStrip(old(editor))
        && edited == (if hasOnEdit then Some(labelText) else None)
        && editor == old(editor)
        && textHeight == old(textHeight)
    {
      edited := None;
      if isEditing {
        isEditing := false;
        var newContent := RStrip(editor);
        labelText := newContent;
        if hasOnEdit {
          edited := Some(newContent);
        }
      }
    }

    /** Sizes the editor to its text, between 4 and 20 lines. */
    method AdjustTextHeight()
      modifies this`textHeight
      ensures textHeight == Editable.TextHeight(Editable.EditorLines(editor))
      ensures 4 <= textHeight <= 20
    {
      textHeight := Editable.TextHeight(Count(editor, '\n') + 1);
    }

    /** The editor's raw text while editing (not stripped), the label's text
        otherwise. */
    method GetContent() returns (c: string)
      ensures isEditing ==> c == editor
      ensures !isEditing ==> c == labelText
    {
      if isEditing {
        c := editor;
      } else {
        c := labelText;
      }
    }
  }

  /** Unlike the newer widget, this one reports uncommitted text: after
      typing, the reported content is what was typed, whitespace and all. */
  method TypedTextIsReported(m: EditableMessage, text: string) returns (c: string)
    requires m.Valid()
    modifies m
    ensures c == text && m.isEditing
  {
    m.StartEditing();
    m.Type(text);
    c := m.GetContent();
  }
}
