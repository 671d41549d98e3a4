# Chat transcript and context window of a desktop model client

This project models the core of a Tk desktop client that holds a conversation
with a remote language model. It covers:

- the history of `{role, content}` turns that the chat window keeps;
- the window size that decides which trailing turns go out as context with the next message;
- the editable transcript display, one widget per turn, marked in or out of the window;
- the per-message edit state machines and the multi-line input box.

The window, the display and every widget are Dafny classes whose methods
update their fields, as the Python objects do. The rules they follow are
stated as functions over sequences, and lemmas prove the properties of those
functions. The model takes these as parameters:

- the model client's answer (a reply or an exception text);
- the outcome of parsing each numeric setting;
- the save dialog's path;
- the contents of the key file;
- the user's keystrokes.

Modules, one per source file, plus three shared ones:

- `Text`: Python whitespace (`str.isspace`), `strip`, `rstrip`, `split` on one character, `join`.
- `Transcript`: `Role`, `Turn`, the membership rule `i >= total - context_size`, and the context and save selections.
- `ChatApp`: `ClaudeChatApp` and reply decoding (`chat_app.py`).
- `ChatDisplay`: `EditableChatDisplay` (`chat_display.py`).
- `EditableMessage`: the message widget the display uses (`editable_message.py`).
- `MessageWidget`: the older widget (`message_widget.py`).
- `MultilineInput`: the input box (`multiline_input.py`).
- `Wrappers`: `Option`.

Behaviour of the code as written that the model keeps and states:

- A widget's edit callback passes on `len(self.messages)` when it fires, not the widget's own position (chat_display.py:155). While the display has one widget per turn, that index lies outside the history, so `handle_message_edit` ignores it. The history keeps the old text. The widget shows the new one, and sends and saves read the widget. `FinishWidgetEdit` proves this.
- `chat_app.py:118` builds the display without the `get_context_size` argument that `chat_display.py:72` requires. As written, that call raises `TypeError`, so the window is never built (see "## Left out"). The model assumes the intended wiring: the display's operations take the app's window size as a parameter.
- `load_api_key` appends its "key needed" notice before `__init__` sets `full_history = []`. So a new window always starts with an empty history.
- Diagnostic `system` turns inside the window are sent with the context. No filter removes them.
- If a setting fails to parse during a send, the history grows by two: the user turn, then the error notice.
- Display widgets are created with `in_context` always true. Nothing in the chat window calls `refresh_context_indicators`.

## Model

| member | source | states |
|---|---|---|
| `ChatApp.ClaudeChatApp.constructor` | chat_app.py:9-49 | A client exists iff the key file's stripped text is non-empty. The history starts empty either way. The window size is 10, "New Chat" is disarmed, the settings hold their defaults, and the display is fresh and empty. |
| `ChatApp.ClaudeChatApp.TypeMessage` | chat_app.py:125-126 | Typing in the message entry sets exactly the entry's text and nothing else. |
| `ChatApp.ClaudeChatApp.TypeSystemMessage` | chat_app.py:135-136 | Typing in the system box sets exactly its text and nothing else. |
| `ChatApp.ClaudeChatApp.TypeSettings` | chat_app.py:69-102 | Typing in the settings boxes sets exactly the temperature, token and window texts and nothing else. |
| `ChatApp.ClaudeChatApp.HandleMessageEdit` | chat_app.py:51-54 | For `0 <= index < len(history)`: only the content of turn `index` becomes the new text. Role, order, length and the other turns stay as they were. Any other index leaves the history unchanged. |
| `ChatApp.ClaudeChatApp.GetContextMessages` | chat_app.py:214-238 | The loop returns exactly `ContextMessages(history, shown contents, context_size)`. |
| `Transcript.ContextMessages` | chat_app.py:214-238 | `[]` for window 0. Otherwise `min(context_size, len(history))` turns, taken as the suffix in order with roles preserved. Each takes its widget's content when the turn has a widget, else its recorded content. |
| `Transcript.PyTail` | chat_app.py:219 | Python `s[k:]`: for negative `k`, the last `min(-k, len(s))` elements. For `k >= 0`, the elements from `min(k, len(s))` on. |
| `Transcript.NegativeZeroTailIsWhole` | chat_app.py:215-219 | For window 0 and a non-empty history, `history[-0:]` is the whole history, yet the context is empty. The zero case must be handled before slicing. |
| `Transcript.ContextMatchesIndicators` | chat_display.py:168-169 | The turns sent as context are exactly those at positions `i >= total - context_size`, the rule the display uses for its marks. |
| `Transcript.EditReachesContextIffInWindow` | chat_app.py:226-236 | Changing what widget `i` shows changes the next context at turn `i` alone, and only when `i` is in the window. Otherwise the context is unchanged. |
| `Transcript.EditInWindow` | chat_app.py:226-236 | An edit of a widget inside the window replaces exactly its turn of the context with the turn's role and the new text. |
| `Transcript.EditOutsideWindow` | chat_app.py:226-236 | An edit of a widget outside the window leaves the context exactly as it was. |
| `Transcript.MergedHistory` | chat_app.py:146-158 | The save's history has the same length and the same roles as the history. Displayed turns carry their widget's content, and turns without a widget are copied unchanged. |
| `Transcript.ContextIsTailOfMerged` | chat_app.py:146-158 | The context of a send is the tail of what a save would write, with the same edited contents. |
| `Transcript.MergeOfUneditedIsHistory` | chat_app.py:146-158 | When every widget shows its turn's recorded content, the save's history is the history itself. |
| `ChatApp.ClaudeChatApp.SaveConversation` | chat_app.py:140-168 | A cancelled dialog (empty path) saves nothing. Otherwise the saved record is the merged history, the stripped system prompt, and the three settings texts. |
| `ChatApp.ClaudeChatApp.SendMessage` | chat_app.py:240-291 | Without a client: exactly one `system` notice is appended and no request is made. With a blank stripped input: nothing changes, the display included. Otherwise the history grows by exactly two: the user turn, never rolled back, then the reply or an error notice. The entry is cleared, and a request is made iff both settings parse. In every case existing widgets are kept. The display shows `RefreshedShown(old shown, new history)`, and it stays one widget per turn. New widgets are fresh, take their turns' roles, are not editing and are marked in context. |
| `ChatApp.ClaudeChatApp.SendUserTurn` | chat_app.py:254-291 | Records the user turn and its reply or notice, then refreshes. Existing widgets are kept, the widget count becomes `max(count before, len(history))`, and the display shows `RefreshedShown(old shown, new history)`. New widgets are fresh, take their turns' roles, are not editing and are marked in context. The request is built from the history with the user turn, and from what the display showed before the send. |
| `ChatApp.ClaudeChatApp.RecordUserTurn` | chat_app.py:254-289 | Changes only the history and the entry. The entry is cleared, and the history gains the user turn and then `ResponseTurn`. The request is the one `Exchange` builds with the user turn already recorded. |
| `ChatApp.ClaudeChatApp.Exchange` | chat_app.py:259-289 | Changes nothing. The turn to record is the first failure (temperature, then max tokens, then the call) as `"Error: " + text`, or else the decoded reply. A request exists iff both settings parse. It names the model and carries the token count, the `system` field and the window's context, or the user turn alone when the context is empty. |
| `ChatApp.OutgoingEndsWithUserTurn` | chat_app.py:256-267 | When the display is at most one widget per turn, the outgoing list has 1 message for window 0 and `min(context_size, len(history))` otherwise. Its last message is the recorded user turn (the stripped input), not a widget's text. |
| `ChatApp.OutgoingMessagesCases` | chat_app.py:265-267 | The user turn goes out alone exactly when the window is 0 or the history is empty. Otherwise the request carries the context. |
| `ChatApp.ResponseTurnCases` | chat_app.py:259-289 | The turn is the assistant's iff both settings parse and the call answers. It then holds the decoded reply. Otherwise it is a `system` turn starting with `"Error: "`, carrying the temperature's error, else the token count's, else the call's. |
| `ChatApp.FormatClaudeResponse` | chat_app.py:293-305 | A string is returned as it is. A dict with `'text'` gives that entry, and one without gives `str(dict)`. An object with `text` gives its text. An empty list gives `""` and a one-block list that block's text. A longer list is as long as its block texts plus one space between neighbours. Anything else gives `str(response)`. |
| `ChatApp.SystemField` | chat_app.py:262-279 | The `system` key is present iff the system text is not all whitespace, and then it holds the stripped text. |
| `ChatApp.ListReplyAppendsBlock` | chat_app.py:293-305 | A list reply decodes to the decoding of all but its last block, then one space, then the last block's text (or `str(block)` for a block without `text`). |
| `ChatApp.ListReplyRoundTrip` | chat_app.py:301-302 | When no block text contains a space, splitting the decoded list reply at spaces gives back exactly the block texts. |
| `ChatApp.TwoBlockReply` | chat_app.py:302 | Blocks with texts "A" and "B" decode to "A B". |
| `ChatApp.ClaudeChatApp.RefreshDisplay` | chat_app.py:307-317 | Widgets are only appended, never removed, and the new count is `max(count before, len(history))`. The display shows `RefreshedShown(old shown, history)`: what it showed, then the contents of the turns that had no widget. New widgets are fresh, take their turns' roles, are not editing and are marked in context. A display that was not ahead of the history ends one widget per turn. |
| `ChatApp.RefreshedShownInStep` | chat_app.py:307-317 | A display in step with the history, refreshed after some turns are recorded, shows what it showed before followed by exactly those turns' contents. |
| `ChatApp.ClaudeChatApp.AddWidgets` | chat_app.py:309-317 | One fresh widget per turn that has none yet (from position `len(messages)` on, which is 0 for an empty display), appended in order with that turn's content and role, not editing and marked in context. Earlier widgets are untouched. |
| `ChatApp.ClaudeChatApp.UpdateContextSize` | chat_app.py:206-212 | A parsed value `v` sets the window to `max(0, v)` and leaves the history unchanged. A display in step then stays exactly as it was. A parse failure keeps the window and appends the invalid-size notice. Existing widgets are kept, and the display shows `RefreshedShown(old shown, new history)`. New widgets are fresh, take their turns' roles, are not editing and are marked in context. |
| `ChatApp.ClaudeChatApp.ClearChat` | chat_app.py:342-364 | The confirmed click: the history, the API context and the display are empty, the window is 10, the setting texts are the defaults, the system prompt is cleared and the button is disarmed. The message entry is untouched, and the display ends one widget per turn. |
| `ChatApp.ClaudeChatApp.ResetNewChatButton` | chat_app.py:319-322 | Always disarms "New Chat". |
| `ChatApp.ClaudeChatApp.NewChat` | chat_app.py:324-364 | Disarmed: it only arms. Every other field stays as it was: history, API context, window, system prompt, the three settings texts and the display. Armed: it empties the history, the API context and the display, restores window 10 and the default setting texts, clears the system prompt, and disarms. The message entry is never touched. |
| `ChatApp.ClaudeChatApp.FinishWidgetEdit` | chat_display.py:155 | The history takes the edit at index `len(display)` only if that index is inside it. So with one widget per turn the history never changes, while the edited widget shows the stripped new text. The committed widget is no longer editing, and keeps its in-context flag, label, buffer and height. A widget that was not editing is left unchanged, and so are the shown contents, so a second commit changes nothing. |
| `ChatDisplay.EditableChatDisplay.constructor` | chat_display.py:72-76 | A new display has no widgets and remembers whether an edit handler was given. |
| `ChatDisplay.EditableChatDisplay.AddMessage` | chat_display.py:144-161 | Exactly one fresh widget is appended with the message's content and role, and earlier widgets are unchanged. Its in-context flag holds iff `context_size >= 0`, because the count is compared with itself. |
| `ChatDisplay.EditableChatDisplay.RefreshContextIndicators` | chat_display.py:163-174 | Afterwards widget `i` is in context iff `i >= total - context_size`. Widgets already marked right are untouched. Contents, edit state, buffers and editor heights are unchanged. |
| `ChatDisplay.EditableChatDisplay.HandleEdit` | chat_display.py:176-179 | Forwards `(index, new_content)` unchanged iff an edit handler exists, and otherwise nothing. |
| `ChatDisplay.EditableChatDisplay.FinishEdit` | chat_display.py:150-156 | When widget `k` was editing, it commits the stripped buffer and leaves editing, keeping its in-context flag, label, buffer and height. A widget that was not editing is unchanged. The index forwarded with it is the widget count at that moment, not `k`, and nothing is forwarded when `k` was not editing or there is no handler. |
| `ChatDisplay.EditableChatDisplay.Clear` | chat_display.py:181-187 | No widgets remain. |
| `Transcript.ContextStart` | chat_display.py:41 | `max(0, total - context_size)` is at least 0, is at most `total` for a window that is not negative, and position `i` is in context iff `i >= context_start`. |
| `Transcript.WindowIsSuffix` | chat_display.py:168-169 | The in-context positions form a contiguous suffix: none for window 0, all for a window of at least `total`. |
| `Transcript.WindowScenario` | chat_display.py:169 | Five turns with window 3 put turns 2-4 in context. After a sixth turn, turns 3-5 are in context. |
| `Transcript.RoleLabel` | editable_message.py:37 | The header is "You" exactly for user, "Claude" exactly for assistant and "System" exactly for system turns. |
| `EditableMessage.EditableMessage.constructor` | editable_message.py:11-84 | A new widget is not editing, and has the given content, role and in-context flag. The out-of-context label exists iff it is out of context, and the editor is 4 lines high. |
| `EditableMessage.EditableMessage.StartEditing` | editable_message.py:99-108 | Acts only when not editing (a repeat is a no-op). Afterwards it is editing, the buffer holds the committed content, and the height fits the content. |
| `EditableMessage.EditableMessage.StopEditing` | editable_message.py:110-120 | Does nothing when not editing. Otherwise the content becomes `rstrip(buffer)`, editing ends, and `on_edit` receives that same string exactly once, when it exists. |
| `EditableMessage.EditableMessage.AdjustTextHeight` | editable_message.py:122-124 | The height is `max(4, min(lines, 20))` of the buffer's line count, always within `[4, 20]`. |
| `EditableMessage.TextHeight` | editable_message.py:124 | Always in `[4, 20]`. Equal to the line count inside that range, and clamped to the nearer end outside it. |
| `EditableMessage.EditorLines` | editable_message.py:123 | The editor's line count is the number of line-break-separated pieces of its text. |
| `EditableMessage.EditableMessage.UpdateContextStatus` | editable_message.py:126-155 | Afterwards `in_context == b`, and the label exists iff `!b`. A call with the current value changes nothing, and content and edit state never change. |
| `EditableMessage.EditableMessage.GetContent` | editable_message.py:157-159 | Returns the committed content, also while editing, never the uncommitted buffer. |
| `EditableMessage.EditWithoutTyping` | editable_message.py:99-120 | Opening and closing the editor without typing leaves `rstrip(old content)` and reports it once to `on_edit`. |
| `EditableMessage.EditTwiceWithoutTyping` | editable_message.py:105-114 | A second such cycle changes nothing more: after two cycles the content is still `rstrip(original)`. |
| `Text.RStrip` | editable_message.py:113 | `rstrip` yields a prefix of the text that does not end in whitespace, and everything it drops is whitespace. |
| `Text.RStripIdempotent` | editable_message.py:113 | Stripping a stripped text again changes nothing. |
| `Text.LStrip` | chat_app.py:250 | `lstrip` yields a suffix of the text that does not start with whitespace, and everything it drops is whitespace. |
| `Text.StripEmptyIff` | chat_app.py:250-251 | The stripped input is empty iff the input is all whitespace. |
| `MessageWidget.EditableMessage.constructor` | message_widget.py:5-54 | The header is the role's label ("You", "Claude", "System"). The label holds the message, editing is off, and the editor is 4 lines high. |
| `MessageWidget.EditableMessage.StartEditing` | message_widget.py:63-72 | Acts only when not editing, and copies the label text into the editor. |
| `MessageWidget.EditableMessage.StopEditing` | message_widget.py:74-83 | Does nothing when not editing. Otherwise the label becomes `rstrip(editor)`, editing ends, and `on_edit` receives that string once, when it exists. |
| `MessageWidget.EditableMessage.AdjustTextHeight` | message_widget.py:85-87 | The height is the clamped line count of the editor, within `[4, 20]`. |
| `MessageWidget.EditableMessage.GetContent` | message_widget.py:89-92 | While editing, the editor's raw text, not stripped. Otherwise the label text. |
| `MessageWidget.TypedTextIsReported` | message_widget.py:89-92 | After opening the editor and typing, the reported content is exactly what was typed. |
| `MultilineInput.MultilineInput.constructor` | multiline_input.py:12-48 | Starts empty, 2 rows high, with an empty change guard. |
| `MultilineInput.MultilineInput.HandleReturn` | multiline_input.py:50-54 | Submits iff a callback exists and the content is not all whitespace. Returns `"break"` in every case. |
| `MultilineInput.MultilineInput.HandleShiftReturn` | multiline_input.py:56-59 | Inserts exactly one line break at the cursor, so the content has exactly one more, and leaves the cursor just after it. Returns `"break"` and never submits. |
| `MultilineInput.MultilineInput.HandleKeyRelease` | multiline_input.py:61-63 | Every key release applies the height rule. |
| `MultilineInput.MultilineInput.AdjustHeight` | multiline_input.py:65-83 | The height is recomputed, as the clamped row count, only when the content differs from the last one seen. Afterwards the guard equals the content. |
| `MultilineInput.CountRows` | multiline_input.py:72-79 | The loop yields the number of lines plus `len(line) // 50` for each line. |
| `MultilineInput.InputHeight` | multiline_input.py:81-83 | `min(max(2, rows), 12)` is always in `[2, 12]`, and equals `rows` inside that range. |
| `MultilineInput.RowCountBounds` | multiline_input.py:73-79 | The row count is at least one per line, and at most one more per 50 characters of text. |
| `MultilineInput.RowCountOfShortLines` | multiline_input.py:73-79 | When every line is shorter than 50 characters, there is exactly one row per line. |
| `MultilineInput.MultilineInput.Get` | multiline_input.py:85-87 | Returns the content. |
| `MultilineInput.MultilineInput.Delete` | multiline_input.py:89-93 | Leaves empty content, an empty guard and height 2. |
| `MultilineInput.MultilineInput.Bind` | multiline_input.py:99-103 | The four Return/KP_Enter sequences are ignored, and every other sequence is passed on to the text widget. |
| `Text.SplitLength` | multiline_input.py:73-74 | `split('\n')` yields one more piece than there are line breaks. |
| `Text.JoinSplit` | multiline_input.py:73 | Joining the pieces of `split('\n')` with line breaks gives the text back. |
| `Text.SplitJoin` | chat_app.py:302 | Pieces without the separator, once joined, split back into themselves. |
| `Text.JoinLength` | chat_app.py:302 | A joined text is as long as its pieces together plus one separator between each pair of neighbours. |

## Left out

- `ChatApp.ClaudeChatApp.constructor`: as written, `__init__` calls `create_widgets` (chat_app.py:21), which builds the display without the required `get_context_size` argument (chat_app.py:118 against chat_display.py:72). That raises `TypeError`, so `ClaudeChatApp(root)` never completes. The model's constructor succeeds instead, and passes the app's `context_size` wherever the display would ask for it. That wiring is assumed, not written in the source.
- `main.py` is not part of this model: icon conversion, Win32 calls and the Tk main loop are platform I/O.
- Widget layout, styles, colours, packing, the window title and the button's look and text: no behaviour beyond display.
- `ContextScrollCanvas.set` drawing, `_on_scroll`, scrollbar clicks and drags, the mouse wheel: floating-point geometry. Only the integer boundary `context_start` is modelled.
- The model call is an `ApiOutcome` parameter, and so is the exception text of any failure.
- The parsing of the temperature, token and window settings is a parameter that holds the parse's outcome.
- `ChatApp.Request`: the request does not carry the temperature, because its floating-point value is not modelled. Only whether it parsed is.
- `ChatApp.ClaudeChatApp.SaveConversation`: the JSON encoding and file write are not modelled; the method returns the record that would be written.
- `load_conversation` and its file dialog: file I/O and JSON decoding.
- The key file: its creation is not modelled. Its contents are the constructor's parameter (`None` for a missing file).
- `root.after(2000, ...)`: the timer is not modelled. Its firing is the explicit `ResetNewChatButton` event.
- Roles are a closed set of three. A loaded history with any other role string fails in the widgets' colour lookup, which the model does not reach.
- `ChatApp.FormatClaudeResponse`: a dictionary's `'text'` value and a block's `text` are strings here. `str(...)` of any other value is given as that value's `repr` field. With attribute access and `str` total, the `except: pass` branch cannot be reached.
- The user's keystrokes in the editors and the input box are modelled by the `Type` methods, and those in the window's entry, system box and settings boxes by `TypeMessage`, `TypeSystemMessage` and `TypeSettings`, each setting the box's whole text. Tk's own editing (selection, undo, cursor movement) is not modelled.
- `ContextScrollCanvas` keeps the display's original list object. After `clear` rebinds `messages`, the canvas still sees the old list. That sharing is not modelled, because only the canvas's drawing reads it.
- Document attachments are not part of these source files, and neither is sending them.
- `focus_set` of the input box: keyboard focus is Tk state with no effect on content.
- Keyboard focus of the message editors: `start_editing` gives its editor the focus (editable_message.py:107, message_widget.py:71) and `<FocusOut>` commits it (editable_message.py:96, message_widget.py:60), so Tk has at most one editor open at a time. The model has no focus: several editors may be open at once, and the commit that a focus change would cause is the caller's `FinishWidgetEdit` (or `StopEditing`) event.
