/** The scrollable transcript display: one editable message widget per
    displayed turn, in order, each marked in or out of the context window,
    and the edit events the widgets raise passed on to the chat window.

    The display asks its owner for the window size on every use; here that
    size is a parameter of the operations that need it. */
module ChatDisplay {
  import opened Text
  import opened Transcript
  import opened Wrappers
  import Msg = EditableMessage

  class EditableChatDisplay {
    /** The message widgets, oldest first. */
    var messages: seq<Msg.EditableMessage>
    /** Whether an `on_message_edit` callback was given. */
    const hasEditHandler: bool

    /** Each widget appears once, is consistent, and reports its edits. */
    ghost predicate Valid()
      reads this, messages
    {
      && (forall i, j :: 0 <= i < j < |messages| ==> messages[i] != messages[j])
      && (forall i :: 0 <= i < |messages| ==> messages[i].Valid() && messages[i].hasOnEdit)
    }

    /** What each widget currently reports as its content. */
    function Shown(): (shown: seq<string>)
      reads this, messages
      ensures |shown| == |messages|
    {
      seq(|messages|, i requires 0 <= i < |messages| reads this, messages => messages[i].content)
    }

    constructor (hasEditHandler: bool)
      ensures Valid()
      ensures messages == [] && this.hasEditHandler == hasEditHandler
    {
      messages := [];
      this.hasEditHandler := hasEditHandler;
    }

    /** Appends one widget showing the message's content under `role`. Its
        in-context flag compares the widget count with itself, so it holds
        for every window size that is not negative. */
    method AddMessage(message: Turn, role: Role, contextSize: int)
      requires Valid()
      modifies this`messages
      ensures Valid()
      ensures |messages| == |old(messages)| + 1
      ensures messages[..|old(messages)|] == old(messages)
      ensures var w := messages[|old(messages)|];
        && fresh(w)
        && w.content == message.content && w.role == role
        && !w.isEditing
        && (w.inContext <==> contextSize >= 0)
      ensures Shown() == old(Shown()) + [message.content]
    {
      var totalMessages := |messages|;
      var inContext := totalMessages >= |messages| - contextSize;
      var w := new Msg.EditableMessage(message.content, role, inContext, true);
      messages := messages + [w];
      assert forall i :: 0 <= i < |old(messages)| ==> messages[i] == old(messages)[i];
    }

    /** Re-marks every widget: position `i` is in context exactly when
        `i >= total - contextSize`. Widgets already marked right are left
        alone; nothing but the marks changes. */
    method RefreshContextIndicators(contextSize: int)
      requires Valid()
      modifies messages
      ensures Valid()
      ensures forall i :: 0 <= i < |messages| ==>
        messages[i].inContext == InContext(i, |messages|, contextSize)
      ensures forall i :: 0 <= i < |messages| ==>
        old(messages[i].inContext) == InContext(i, |messages|, contextSize) ==> unchanged(messages[i])
      ensures forall i :: 0 <= i < |messages| ==>
        && messages[i].content == old(messages[i].content)
        && messages[i].isEditing == old(messages[i].isEditing)
        && messages[i].buffer == old(messages[i].buffer)
        && messages[i].textHeight == old(messages[i].textHeight)
      ensures Shown() == old(Shown())
    {
      var totalMessages := |messages|;
      var i := 0;
      while i < totalMessages
        invariant 0 <= i <= totalMessages
        invariant Valid()
        invariant forall j :: 0 <= j < i ==>
          messages[j].inContext == InContext(j, totalMessages, contextSize)
        invariant forall j :: 0 <= j < i ==>
          old(messages[j].inContext) == InContext(j, totalMessages, contextSize) ==> unchanged(messages[j])
        invariant forall j :: i <= j < totalMessages ==> unchanged(messages[j])
        invariant forall j :: 0 <= j < totalMessages ==>
          && messages[j].content == old(messages[j].content)
          && messages[j].isEditing == old(messages[j].isEditing)
          && messages[j].buffer == old(messages[j].buffer)
          && messages[j].textHeight == old(messages[j].textHeight)
      {
        var inContext := i >= totalMessages - contextSize;
        if messages[i].inContext != inContext {
          messages[i].UpdateContextStatus(inContext);
        }
        i := i + 1;
      }
    }

    /** The handler for a widget's edit: passes `(index, newContent)` on
        unchanged when there is an `on_message_edit` callback. */
    method HandleEdit(index: int, newContent: string) returns (forwarded: Option<(int, string)>)
      ensures forwarded.Some? <==> hasEditHandler
      ensures forwarded.Some? ==> forwarded.value == (index, newContent)
    {
      forwarded := None;
      if hasEditHandler {
        forwarded := Some((index, newContent));
      }
    }

    /** The user leaves the editor of widget `k`. The widget commits its
        text, and its callback passes on the widget count at this moment,
        not `k`, as the index of the edited message. */
    method FinishEdit(k: nat) returns (forwarded: Option<(int, string)>)
      requires Valid() && k < |messages|
      modifies messages[k]
      ensures Valid()
      ensures old(messages[k].isEditing) ==>
        Shown() == old(Shown())[k := RStrip(old(messages[k].buffer))]
      ensures !old(messages[k].isEditing) ==> Shown() == old(Shown())
      ensures old(messages[k].isEditing) ==>
        && !messages[k].isEditing
        && messages[k].inContext == old(messages[k].inContext)
        && messages[k].hasContextLabel == old(messages[k].hasContextLabel)
        && messages[k].buffer == old(messages[k].buffer)
        && messages[k].textHeight == old(messages[k].textHeight)
      ensures !old(messages[k].isEditing) ==> unchanged(messages[k])
      ensures forwarded ==
        if old(messages[k].isEditing) && hasEditHandler
        then Some((|messages|, RStrip(old(messages[k].buffer))))
        else None
    {
      var edited := messages[k].StopEditing();
      forwarded := None;
      if edited.Some? {
        forwarded := HandleEdit(|messages|, edited.value);
      }
    }

    /** Removes every widget. */
    method Clear()
      modifies this`messages
      ensures Valid()
      ensures messages == []
    {
      messages := [];
    }
  }
}
