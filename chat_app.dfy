/** The chat window: the conversation history, the window size, the
    two-step "New Chat" reset, sending a message to the model with the
    in-context part of the history, decoding the reply, and keeping the
    transcript display in step with the history.

    The model client, the parsing of the numeric settings and the file
    dialogs are outside the model: what they return is passed in. */
module ChatApp {
  import opened Text
  import opened Transcript
  import opened Wrappers
  import opened ChatDisplay
  import Msg = EditableMessage

  /** The model every request names. */
  const Model: string := "claude-3-5-sonnet-20241022"

  /** The notice appended when a message is sent without a client. */
  const NoClientNotice: string :=
    "Cannot send message: No valid API key found. Please add your API key to api_key.txt"

  /** The notice the key loader records when there is no key. */
  const KeyNeededNotice: string :=
    "Anthropic API key needed! Paste your key into api_key.txt in the same directory as this program, or generate one first at https://console.anthropic.com/dashboard"

  /** The notice appended when the window size does not parse. */
  const InvalidContextSizeNotice: string := "Error: Invalid context size value"

  /** The outcome of converting a setting's text to a number. */
  datatype Parse<T> = Parsed(value: T) | Invalid(error: string)

  /** The temperature is only checked, its floating-point value is not
      modelled. */
  datatype Check = Accepted | Rejected(error: string)

  /** One content block of a reply: one with a `text` attribute, or any
      other object, given by its string conversion. */
  datatype Block = TextBlock(text: string) | OtherBlock(repr: string)

  /** The shapes a reply's content can take. `repr` is the string
      conversion of the whole value. */
  datatype Reply =
    | StrReply(s: string)
    | DictReply(entries: map<string, string>, repr: string)
    | TextReply(text: string)
    | ListReply(blocks: seq<Block>)
    | OtherReply(repr: string)

  /** What the model client returns: a reply, or the text of the exception
      it raised. */
  datatype ApiOutcome = Response(content: Reply) | Failure(error: string)

  /** The parameters of one call to the model. */
  datatype Request = Request(model: string, maxTokens: int, messages: seq<Turn>, system: Option<string>)

  /** What a save writes: the history with the displayed contents, the
      system prompt, and the three settings as their texts. */
  datatype SavedConversation = SavedConversation(
    history: seq<Turn>,
    systemMessage: string,
    temperature: string,
    maxTokens: string,
    contextSize: string)

  function BlockText(b: Block): string {
    match b
    case TextBlock(t) => t
    case OtherBlock(r) => r
  }

  function BlockTexts(blocks: seq<Block>): (texts: seq<string>)
    ensures |texts| == |blocks|
    ensures forall i :: 0 <= i < |blocks| ==> texts[i] == BlockText(blocks[i])
  {
    seq(|blocks|, i requires 0 <= i < |blocks| => BlockText(blocks[i]))
  }

  /** A displayable string for any reply: a string as it is, a dictionary's
      `'text'` entry, an object's `text`, the block texts of a list joined
      with single spaces, and the string conversion of anything else. */
  function FormatClaudeResponse(response: Reply): (shown: string)
    ensures response.StrReply? ==> shown == response.s
    ensures response.DictReply? && "text" in response.entries ==> shown == response.entries["text"]
    ensures response.DictReply? && "text" !in response.entries ==> shown == response.repr
    ensures response.TextReply? ==> shown == response.text
    ensures response.ListReply? && response.blocks == [] ==> shown == ""
    ensures response.ListReply? && |response.blocks| == 1 ==> shown == BlockText(response.blocks[0])
    ensures response.ListReply? && response.blocks != [] ==>
      |shown| == TotalLength(BlockTexts(response.blocks)) + |response.blocks| - 1
    ensures response.OtherReply? ==> shown == response.repr
  {
    if response.ListReply? && response.blocks != [] then
      JoinLength(BlockTexts(response.blocks), " ");
      Join(BlockTexts(response.blocks), " ")
    else
    match response
    case StrReply(s) => s
    case DictReply(entries, repr) => if "text" in entries then entries["text"] else repr
    case TextReply(t) => t
    case ListReply(blocks) => Join(BlockTexts(blocks), " ")
    case OtherReply(repr) => repr
  }

  /** Joining one more piece adds a separator and the piece. */
  lemma {:induction false} JoinSnoc(parts: seq<string>, last: string, sep: string)
    requires parts != []
    ensures Join(parts + [last], sep) == Join(parts, sep) + sep + last
    decreases |parts|
  {
    if |parts| == 1 {
      assert (parts + [last])[1..] == [last];
    } else {
      assert (parts + [last])[1..] == parts[1..] + [last];
      JoinSnoc(parts[1..], last, sep);
    }
  }

  /** Decoding a list of blocks extends the decoding of all but the last by
      one space and the last block's text. */
  lemma ListReplyAppendsBlock(blocks: seq<Block>, b: Block)
    requires blocks != []
    ensures FormatClaudeResponse(ListReply(blocks + [b]))
         == FormatClaudeResponse(ListReply(blocks)) + " " + BlockText(b)
  {
    assert BlockTexts(blocks + [b]) == BlockTexts(blocks) + [BlockText(b)];
    JoinSnoc(BlockTexts(blocks), BlockText(b), " ");
  }

  /** Block texts without spaces can be recovered from the decoded reply
      by splitting it at the spaces. */
  lemma ListReplyRoundTrip(blocks: seq<Block>)
    requires blocks != []
    requires forall i :: 0 <= i < |blocks| ==> ' ' !in BlockText(blocks[i])
    ensures Split(FormatClaudeResponse(ListReply(blocks)), ' ') == BlockTexts(blocks)
  {
    SplitJoin(BlockTexts(blocks), ' ');
  }

  /** A two-block reply with texts "A" and "B" decodes to "A B". */
  lemma TwoBlockReply()
    ensures FormatClaudeResponse(ListReply([TextBlock("A"), TextBlock("B")])) == "A B"
  {
    ListReplyAppendsBlock([TextBlock("A")], TextBlock("B"));
  }

  /** The `messages` of the request: the context, or the user turn alone
      when the context is empty. */
  function OutgoingMessages(history: seq<Turn>, shown: seq<string>, contextSize: nat, userMsg: Turn): seq<Turn> {
    var ctx := ContextMessages(history, shown, contextSize);
    if |ctx| == 0 then [userMsg] else ctx
  }

  /** The user turn goes out alone exactly when the window is 0 or the
      history is empty; otherwise the request carries the context. */
  lemma OutgoingMessagesCases(history: seq<Turn>, shown: seq<string>, contextSize: nat, userMsg: Turn)
    ensures contextSize == 0 || history == [] ==> OutgoingMessages(history, shown, contextSize, userMsg) == [userMsg]
    ensures contextSize > 0 && history != [] ==>
      OutgoingMessages(history, shown, contextSize, userMsg) == ContextMessages(history, shown, contextSize)
  {
  }

  /** Sending with a display at most one widget per turn (the new user turn
      not yet shown): the request carries the user turn alone for a window
      of 0 and the last `contextSize` turns otherwise, and ends with the
      user turn as recorded (the stripped input), not a widget's text. */
  lemma OutgoingEndsWithUserTurn(history: seq<Turn>, shown: seq<string>, contextSize: nat, userMsg: Turn)
    requires |shown| <= |history|
    ensures var out := OutgoingMessages(history + [userMsg], shown, contextSize, userMsg);
      && |out| == (if contextSize == 0 then 1 else Min(contextSize, |history| + 1))
      && out[|out| - 1] == userMsg
  {
    var h := history + [userMsg];
    var ctx := ContextMessages(h, shown, contextSize);
    if |ctx| > 0 {
      assert ctx[|ctx| - 1].role == h[|h| - 1].role;
    }
  }

  /** The `system` field: present exactly when the stripped system text is
      not empty. */
  function SystemField(systemText: string): (field: Option<string>)
    ensures field.Some? <==> !AllSpace(systemText)
    ensures field.Some? ==> field.value == Strip(systemText)
  {
    StripEmptyIff(systemText);
    var s := Strip(systemText);
    if s != "" then Some(s) else None
  }

  /** The turn that follows the user's: the first failure (temperature,
      token count, then the call) as a system notice, else the decoded
      reply. */
  function ResponseTurn(temperature: Check, maxTokens: Parse<int>, outcome: ApiOutcome): Turn {
    if temperature.Rejected? then Turn(System, "Error: " + temperature.error)
    else if maxTokens.Invalid? then Turn(System, "Error: " + maxTokens.error)
    else match outcome
      case Response(content) => Turn(Assistant, FormatClaudeResponse(content))
      case Failure(e) => Turn(System, "Error: " + e)
  }

  /** The reply turn is the assistant's exactly when the call was made and
      answered; every other outcome is a system notice of its first
      failure. */
  lemma ResponseTurnCases(temperature: Check, maxTokens: Parse<int>, outcome: ApiOutcome)
    ensures var t := ResponseTurn(temperature, maxTokens, outcome);
      && (t.role == Assistant <==> temperature.Accepted? && maxTokens.Parsed? && outcome.Response?)
      && (t.role != Assistant ==> t.role == System && 7 <= |t.content| && t.content[..7] == "Error: ")
      && (temperature.Rejected? ==> t.content == "Error: " + temperature.error)
      && (temperature.Accepted? && maxTokens.Invalid? ==> t.content == "Error: " + maxTokens.error)
      && (temperature.Accepted? && maxTokens.Parsed? ==>
            t.content == match outcome
              case Response(content) => FormatClaudeResponse(content)
              case Failure(e) => "Error: " + e)
  {
  }

  /** The contents of a list of turns. */
  function Contents(turns: seq<Turn>): (cs: seq<string>)
    ensures |cs| == |turns|
    ensures forall i :: 0 <= i < |turns| ==> cs[i] == turns[i].content
  {
    seq(|turns|, i requires 0 <= i < |turns| => turns[i].content)
  }

  /** The request sent with `messages` when both settings parse; none
      otherwise. */
  function RequestFor(temperature: Check, maxTokens: Parse<int>, messages: seq<Turn>, system: string): Option<Request> {
    if temperature.Accepted? && maxTokens.Parsed?
    then Some(Request(Model, maxTokens.value, messages, SystemField(system)))
    else None
  }

  /** What the display shows once refreshed against `history`: a widget is
      appended for every turn that has none yet, and nothing else changes. */
  function RefreshedShown(shown: seq<string>, history: seq<Turn>): seq<string> {
    shown + ContentsFrom(history, |shown|)
  }

  /** The contents of the turns from position `start` on; none when there
      are no such turns. */
  function ContentsFrom(turns: seq<Turn>, start: nat): (cs: seq<string>)
    ensures |cs| == if start < |turns| then |turns| - start else 0
    ensures forall i :: 0 <= i < |cs| ==> cs[i] == turns[start + i].content
  {
    if start < |turns|
    then seq(|turns| - start, i requires 0 <= i < |turns| - start => turns[start + i].content)
    else []
  }

  /** A display in step with the history, refreshed after `turns` are
      recorded, shows exactly the contents of those turns after what it
      showed before. */
  lemma RefreshedShownInStep(shown: seq<string>, history: seq<Turn>, turns: seq<Turn>)
    requires |shown| == |history|
    ensures RefreshedShown(shown, history + turns) == shown + Contents(turns)
  {
    assert ContentsFrom(history + turns, |shown|) == Contents(turns);
  }


  class ClaudeChatApp {
    /** `full_history`: every turn, oldest first. */
    var history: seq<Turn>
    /** The number of trailing turns sent as context. */
    var contextSize: nat
    /** Whether "New Chat" has been clicked once and awaits confirmation. */
    var confirmNewChat: bool
    /** Whether a model client exists (a key was found). */
    const hasClient: bool
    const display: EditableChatDisplay
    var apiContext: seq<Turn>
    /** The texts of the message entry, the system prompt box and the three
        settings boxes. */
    var inputText: string
    var systemText: string
    var temperatureText: string
    var tokensText: string
    var contextSizeText: string

    ghost predicate Valid()
      reads display, display.messages
    {
      display.Valid() && display.hasEditHandler
    }

    /** One display widget per turn of the history. */
    ghost predicate InStep()
      reads this, display
    {
      |display.messages| == |history|
    }

    /** Starts with an empty history whether or not a key was found: the key
        loader's notice goes into a history that the constructor then
        replaces with an empty one. */
    constructor (apiKeyFile: Option<string>)
      ensures Valid() && InStep() && fresh(display)
      ensures hasClient <==> apiKeyFile.Some? && !AllSpace(apiKeyFile.value)
      ensures history == [] && apiContext == [] && contextSize == 10 && !confirmNewChat
      ensures temperatureText == "1.0" && tokensText == "1024" && contextSizeText == "10"
      ensures inputText == "" && systemText == ""
    {
      var key := if apiKeyFile.Some? then Strip(apiKeyFile.value) else "";
      history := [];
      if key == "" {
        history := history + [Turn(System, KeyNeededNotice)];
      }
      if apiKeyFile.Some? {
        StripEmptyIff(apiKeyFile.value);
      }
      hasClient := key != "";
      contextSize := 10;
      apiContext := [];
      history := [];
      confirmNewChat := false;
      temperatureText := "1.0";
      tokensText := "1024";
      contextSizeText := "10";
      inputText := "";
      systemText := "";
      display := new EditableChatDisplay(true);
    }

    /** The user types in the message entry: it now holds `text`, and
        nothing else changes. */
    method TypeMessage(text: string)
      modifies this`inputText
      ensures inputText == text
    {
      inputText := text;
    }

    /** The user types in the system-message box. */
    method TypeSystemMessage(text: string)
      modifies this`systemText
      ensures systemText == text
    {
      systemText := text;
    }

    /** The user types in the temperature, token and window boxes. */
    method TypeSettings(temperature: string, tokens: string, window: string)
      modifies this`temperatureText, this`tokensText, this`contextSizeText
      ensures temperatureText == temperature && tokensText == tokens && contextSizeText == window
    {
      temperatureText := temperature;
      tokensText := tokens;
      contextSizeText := window;
    }

    /** An edit forwarded by the display: replaces the content of turn
        `index` and nothing else; an index outside the history is ignored. */
    method HandleMessageEdit(index: int, newContent: string)
      modifies this`history
      ensures 0 <= index < |old(history)| ==>
        history == old(history)[index := Turn(old(history)[index].role, newContent)]
      ensures !(0 <= index < |old(history)|) ==> history == old(history)
    {
      if 0 <= index < |history| {
        history := history[index := history[index].(content := newContent)];
      }
    }

    /** The in-context part of the history, each turn with the content its
        widget currently shows. */
    method GetContextMessages() returns (msgs: seq<Turn>)
      ensures msgs == ContextMessages(history, display.Shown(), contextSize)
    {
      if contextSize == 0 {
        return [];
      }
      ghost var shown := display.Shown();
      var messages := display.messages;
      assert |shown| == |messages|;
      var contextSlice := PyTail(history, -(contextSize as int));
      msgs := [];
      var startIdx := |history| - |contextSlice|;
      var i := 0;
      while i < |contextSlice|
        invariant 0 <= i <= |contextSlice|
        invariant |msgs| == i
        invariant forall k :: 0 <= k < i ==> msgs[k] == Resolve(history, shown, startIdx + k)
      {
        var displayIdx := startIdx + i;
        if displayIdx < |messages| {
          var editedContent := messages[displayIdx].GetContent();
          assert editedContent == shown[displayIdx];
          msgs := msgs + [Turn(contextSlice[i].role, editedContent)];
        } else {
          msgs := msgs + [contextSlice[i]];
        }
        i := i + 1;
      }
      assert msgs == ContextMessages(history, shown, contextSize);
      assert shown == display.Shown();
    }

    /** What a save writes to the chosen file; nothing when the dialog is
        cancelled (an empty path). */
    method SaveConversation(filePath: string) returns (saved: Option<SavedConversation>)
      ensures filePath == "" ==> saved == None
      ensures filePath != "" ==> saved == Some(SavedConversation(
        MergedHistory(history, display.Shown()), Strip(systemText),
        temperatureText, tokensText, contextSizeText))
    {
      saved := None;
      if filePath != "" {
        ghost var shown := display.Shown();
        var messages := display.messages;
        assert |shown| == |messages|;
        var currentHistory: seq<Turn> := [];
        var i := 0;
        while i < |history|
          invariant 0 <= i <= |history|
          invariant |currentHistory| == i
          invariant forall k :: 0 <= k < i ==> currentHistory[k] == Resolve(history, shown, k)
        {
          var msg := history[i];
          if i < |messages| {
            var currentContent := messages[i].GetContent();
            assert currentContent == shown[i];
            currentHistory := currentHistory + [Turn(msg.role, currentContent)];
          } else {
            currentHistory := currentHistory + [msg];
          }
          i := i + 1;
        }
        assert currentHistory == MergedHistory(history, shown);
        assert shown == display.Shown();
        saved := Some(SavedConversation(currentHistory, Strip(systemText),
          temperatureText, tokensText, contextSizeText));
      }
    }

    /** Appends one widget per turn of the history that has none yet, in
        order: the loop over `full_history` when the display is empty and
        over `full_history[len(messages):]` otherwise. */
    method AddWidgets()
      requires Valid()
      modifies display`messages
      ensures Valid()
      ensures |display.messages| == |old(display.messages)| + |ContentsFrom(history, |old(display.messages)|)|
      ensures display.messages[..|old(display.messages)|] == old(display.messages)
      ensures display.Shown() == old(display.Shown()) + ContentsFrom(history, |old(display.messages)|)
      ensures forall k :: |old(display.messages)| <= k < |display.messages| ==>
        && k < |history| && fresh(display.messages[k]) && display.messages[k].role == history[k].role
        && !display.messages[k].isEditing && display.messages[k].inContext
    {
      ghost var n0 := |display.messages|;
      ghost var before := display.messages;
      ghost var shownBefore := display.Shown();
      var i := |display.messages|;
      while i < |history|
        invariant n0 <= i <= if n0 < |history| then |history| else n0
        invariant Valid()
        invariant |display.messages| == i
        invariant display.messages[..n0] == before
        invariant forall k :: n0 <= k < |display.messages| ==>
          && fresh(display.messages[k])
          && display.messages[k].content == history[k].content
          && display.messages[k].role == history[k].role
          && !display.messages[k].isEditing && display.messages[k].inContext
      {
        var msg := history[i];
        ghost var prev := display.messages;
        display.AddMessage(msg, msg.role, contextSize);
        assert display.messages[..n0] == prev[..n0];
        i := i + 1;
      }
      ghost var added := ContentsFrom(history, n0);
      assert |display.Shown()| == |shownBefore| + |added|;
      forall k | 0 <= k < |display.messages|
        ensures display.Shown()[k] == (shownBefore + added)[k]
      {
        if k < n0 {
          assert display.messages[k] == before[k];
        }
      }
      assert display.Shown() == shownBefore + added;
    }

    /** The first refresh adds a widget for every turn; later ones add
        widgets only for the turns that have none. */
    method RefreshDisplay()
      requires Valid()
      modifies display`messages
      ensures Valid()
      ensures |display.messages| == if |history| > |old(display.messages)| then |history| else |old(display.messages)|
      ensures display.messages[..|old(display.messages)|] == old(display.messages)
      ensures display.Shown() == RefreshedShown(old(display.Shown()), history)
      ensures |history| <= |old(display.messages)| ==> display.messages == old(display.messages)
      ensures forall k :: |old(display.messages)| <= k < |display.messages| ==>
        && k < |history| && fresh(display.messages[k]) && display.messages[k].role == history[k].role
        && !display.messages[k].isEditing && display.messages[k].inContext
      ensures old(|display.messages|) <= |history| ==> InStep()
    {
      if |display.messages| == 0 {
        AddWidgets();
      } else if |history| > |display.messages| {
        AddWidgets();
      }
    }

    /** Sends the typed message. Without a client only a notice is added; a
        blank input changes nothing. Otherwise the user turn is added, kept
        whatever happens next, and followed by the reply or by a notice of
        the first failure; the model is called only when both settings
        parse. */
    method SendMessage(temperature: Check, maxTokens: Parse<int>, outcome: ApiOutcome)
      returns (request: Option<Request>)
      requires Valid()
      modifies this`history, this`inputText, display`messages
      ensures Valid()
      ensures old(InStep()) ==> InStep()
      ensures |display.messages| >= |old(display.messages)|
      ensures display.messages[..|old(display.messages)|] == old(display.messages)
      ensures forall k :: |old(display.messages)| <= k < |display.messages| ==>
        && k < |history| && fresh(display.messages[k]) && display.messages[k].role == history[k].role
        && !display.messages[k].isEditing && display.messages[k].inContext
      ensures !hasClient ==>
        && history == old(history) + [Turn(System, NoClientNotice)]
        && request == None && inputText == old(inputText)
        && display.Shown() == RefreshedShown(old(display.Shown()), history)
      ensures hasClient && AllSpace(old(inputText)) ==>
        && history == old(history) && request == None
        && inputText == old(inputText) && display.messages == old(display.messages)
      ensures hasClient && !AllSpace(old(inputText)) ==>
        var userMsg := Turn(User, Strip(old(inputText)));
        && history == old(history) + [userMsg, ResponseTurn(temperature, maxTokens, outcome)]
        && inputText == ""
        && request == RequestFor(temperature, maxTokens,
          OutgoingMessages(old(history) + [userMsg], old(display.Shown()), contextSize, userMsg), systemText)
        && display.Shown() == RefreshedShown(old(display.Shown()), history)
    {
      request := None;
      if !hasClient {
        history := history + [Turn(System, NoClientNotice)];
        RefreshDisplay();
        return;
      }
      var userMsgContent := Strip(inputText);
      StripEmptyIff(inputText);
      if userMsgContent == "" {
        return;
      }
      request := SendUserTurn(Turn(User, userMsgContent), temperature, maxTokens, outcome);
    }

    /** A send with a non-blank input: the turns are recorded, then the
        display is refreshed. */
    method SendUserTurn(userMsg: Turn, temperature: Check, maxTokens: Parse<int>, outcome: ApiOutcome)
      returns (request: Option<Request>)
      requires Valid()
      modifies this`history, this`inputText, display`messages
      ensures Valid()
      ensures history == old(history) + [userMsg, ResponseTurn(temperature, maxTokens, outcome)]
      ensures inputText == ""
      ensures |display.messages| ==
        if |history| > |old(display.messages)| then |history| else |old(display.messages)|
      ensures display.messages[..|old(display.messages)|] == old(display.messages)
      ensures forall k :: |old(display.messages)| <= k < |display.messages| ==>
        && k < |history| && fresh(display.messages[k]) && display.messages[k].role == history[k].role
        && !display.messages[k].isEditing && display.messages[k].inContext
      ensures display.Shown() == RefreshedShown(old(display.Shown()), history)
      ensures request == RequestFor(temperature, maxTokens,
          OutgoingMessages(old(history) + [userMsg], old(display.Shown()), contextSize, userMsg), systemText)
    {
      ghost var shown, size, system := display.Shown(), contextSize, systemText;
      request := RecordUserTurn(userMsg, temperature, maxTokens, outcome);
      assert display.Shown() == shown;
      ghost var recorded := history;
      RefreshDisplay();
      assert history == recorded && contextSize == size && systemText == system;
    }

    /** The entry is cleared, the user turn recorded, the exchange run and
        its reply or failure notice recorded; the display is not touched. */
    method RecordUserTurn(userMsg: Turn, temperature: Check, maxTokens: Parse<int>, outcome: ApiOutcome)
      returns (request: Option<Request>)
      modifies this`history, this`inputText
      ensures history == old(history) + [userMsg, ResponseTurn(temperature, maxTokens, outcome)]
      ensures inputText == ""
      ensures request == RequestFor(temperature, maxTokens,
          OutgoingMessages(old(history) + [userMsg], old(display.Shown()), contextSize, userMsg), systemText)
    {
      ghost var shown, size, system := display.Shown(), contextSize, systemText;
      ghost var out := OutgoingMessages(history + [userMsg], shown, size, userMsg);
      BeginTurn(userMsg);
      assert display.Shown() == shown && contextSize == size && systemText == system;
      var reply;
      request, reply := Exchange(userMsg, temperature, maxTokens, outcome);
      assert OutgoingMessages(history, display.Shown(), contextSize, userMsg) == out;
      history := history + [reply];
      assert old(history) + [userMsg] + [reply] == old(history) + [userMsg, reply];
    }

    /** The entry is cleared and the user turn recorded. */
    method BeginTurn(userMsg: Turn)
      modifies this`history, this`inputText
      ensures history == old(history) + [userMsg]
      ensures inputText == ""
    {
      inputText := "";
      history := history + [userMsg];
    }

    /** The guarded part of a send, once the user turn is recorded: read the
        settings, build the request from the context, call the model, and
        give the turn to record: the decoded reply, or a notice of the first
        failure. The model is called only when both settings parse. */
    method Exchange(userMsg: Turn, temperature: Check, maxTokens: Parse<int>, outcome: ApiOutcome)
      returns (request: Option<Request>, reply: Turn)
      ensures reply == ResponseTurn(temperature, maxTokens, outcome)
      ensures request == RequestFor(temperature, maxTokens,
          OutgoingMessages(history, display.Shown(), contextSize, userMsg), systemText)
    {
      request := None;
      if temperature.Rejected? {
        reply := Turn(System, "Error: " + temperature.error);
      } else if maxTokens.Invalid? {
        reply := Turn(System, "Error: " + maxTokens.error);
      } else {
        var contextMessages := GetContextMessages();
        if |contextMessages| == 0 {
          contextMessages := [userMsg];
        }
        request := Some(Request(Model, maxTokens.value, contextMessages, SystemField(systemText)));
        match outcome {
          case Response(content) =>
            var claudeMessage := FormatClaudeResponse(content);
            reply := Turn(Assistant, claudeMessage);
          case Failure(e) =>
            reply := Turn(System, "Error: " + e);
        }
      }
    }

    /** Takes the window size from its parsed setting, negative values as
        0; a setting that does not parse adds a notice instead. */
    method UpdateContextSize(parsed: Parse<int>)
      requires Valid()
      modifies this`contextSize, this`history, display`messages
      ensures Valid()
      ensures old(InStep()) ==> InStep()
      ensures |display.messages| >= |old(display.messages)|
      ensures display.messages[..|old(display.messages)|] == old(display.messages)
      ensures forall k :: |old(display.messages)| <= k < |display.messages| ==>
        && k < |history| && fresh(display.messages[k]) && display.messages[k].role == history[k].role
        && !display.messages[k].isEditing && display.messages[k].inContext
      ensures parsed.Parsed? ==>
        && contextSize == (if parsed.value > 0 then parsed.value else 0)
        && history == old(history)
        && (old(InStep()) ==> display.messages == old(display.messages))
      ensures parsed.Invalid? ==>
        && contextSize == old(contextSize)
        && history == old(history) + [Turn(System, InvalidContextSizeNotice)]
      ensures display.Shown() == RefreshedShown(old(display.Shown()), history)
    {
      if parsed.Parsed? {
        contextSize := if parsed.value > 0 then parsed.value else 0;
        RefreshDisplay();
      } else {
        history := history + [Turn(System, InvalidContextSizeNotice)];
        RefreshDisplay();
      }
    }

    /** The end of the two-second confirmation window: disarms "New Chat". */
    method ResetNewChatButton()
      modifies this`confirmNewChat
      ensures !confirmNewChat
    {
      confirmNewChat := false;
    }

    /** "New Chat": the first click only arms the reset; a click while armed
        empties the history and the display and restores the default
        settings. */
    method NewChat()
      requires Valid()
      modifies this`confirmNewChat, this`history, this`apiContext, this`systemText
      modifies this`temperatureText, this`tokensText, this`contextSizeText, this`contextSize
      modifies display`messages
      ensures Valid()
      ensures old(InStep()) ==> InStep()
      ensures inputText == old(inputText)
      ensures !old(confirmNewChat) ==>
        && confirmNewChat
        && history == old(history) && apiContext == old(apiContext) && contextSize == old(contextSize)
        && systemText == old(systemText) && temperatureText == old(temperatureText)
        && tokensText == old(tokensText) && contextSizeText == old(contextSizeText)
        && display.messages == old(display.messages)
      ensures old(confirmNewChat) ==>
        && !confirmNewChat
        && history == [] && apiContext == [] && contextSize == 10
        && systemText == "" && temperatureText == "1.0" && tokensText == "1024"
        && contextSizeText == "10"
        && display.messages == [] && InStep()
    {
      if !confirmNewChat {
        confirmNewChat := true;
      } else {
        ClearChat();
      }
    }

    /** The confirmed click of "New Chat": empties the history, the request
        context and the display, restores the default settings and disarms
        the button. */
    method ClearChat()
      requires Valid()
      modifies this`confirmNewChat, this`history, this`apiContext, this`systemText
      modifies this`temperatureText, this`tokensText, this`contextSizeText, this`contextSize
      modifies display`messages
      ensures Valid()
      ensures inputText == old(inputText)
      ensures !confirmNewChat
      ensures history == [] && apiContext == [] && contextSize == 10
      ensures systemText == "" && temperatureText == "1.0" && tokensText == "1024"
      ensures contextSizeText == "10"
      ensures display.messages == [] && InStep()
    {
      confirmNewChat := false;
      history := [];
      apiContext := [];
      systemText := "";
      temperatureText := "1.0";
      tokensText := "1024";
      contextSizeText := "10";
      contextSize := 10;
      display.Clear();
      ResetNewChatButton();
      assert Valid() && display.messages == [] && history == [];
      RefreshDisplay();
    }

    /** The user leaves the editor of widget `k`: the widget commits, the
        display forwards the widget count as the index, and the history
        takes the edit only if that index lies inside it. With one widget
        per turn it never does, so the history keeps its old content, while
        the widget, which later sends and saves read, shows the new one. */
    method FinishWidgetEdit(k: nat)
      requires Valid() && k < |display.messages|
      modifies display.messages[k], this`history
      ensures Valid()
      ensures display.messages == old(display.messages)
      ensures old(display.messages[k].isEditing) ==>
        display.Shown() == old(display.Shown())[k := RStrip(old(display.messages[k].buffer))]
      ensures !old(display.messages[k].isEditing) ==> display.Shown() == old(display.Shown())
      ensures old(display.messages[k].isEditing) ==>
        && !display.messages[k].isEditing
        && display.messages[k].inContext == old(display.messages[k].inContext)
        && display.messages[k].hasContextLabel == old(display.messages[k].hasContextLabel)
        && display.messages[k].buffer == old(display.messages[k].buffer)
        && display.messages[k].textHeight == old(display.messages[k].textHeight)
      ensures !old(display.messages[k].isEditing) ==> unchanged(display.messages[k])
      ensures var i := |display.messages|;
        history ==
          if old(display.messages[k].isEditing) && i < |old(history)|
          then old(history)[i := Turn(old(history)[i].role, RStrip(old(display.messages[k].buffer)))]
          else old(history)
      ensures old(InStep()) ==> history == old(history)
    {
      var forwarded := display.FinishEdit(k);
      if forwarded.Some? {
        HandleMessageEdit(forwarded.value.0, forwarded.value.1);
      }
    }
  }
}
