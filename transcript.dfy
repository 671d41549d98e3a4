/** The conversation log and the context-window rules shared by the chat
    window and the transcript display: which trailing turns are "in
    context", and which content each of them contributes, given the texts
    the display widgets currently show. */
module Transcript {

  /** The role of a turn. `System` marks notices the client inserts itself
      (errors, missing key), not a model-level system prompt. */
  datatype Role = User | Assistant | System

  /** One `{role, content}` entry of the history. */
  datatype Turn = Turn(role: Role, content: string)

  /** The header a message widget shows for a role. */
  function RoleLabel(role: Role): (header: string)
    ensures header == "You" <==> role == User
    ensures header == "Claude" <==> role == Assistant
    ensures header == "System" <==> role == System
  {
    match role
    case User => "You"
    case Assistant => "Claude"
    case System => "System"
  }

  function Min(a: int, b: int): int {
    if a <= b then a else b
  }

  /** The membership rule: position `i` of `total` messages is in the
      window of `contextSize` messages. */
  predicate InContext(i: int, total: int, contextSize: int) {
    i >= total - contextSize
  }

  /** The first in-context position, `max(0, total - contextSize)`, as the
      scrollbar computes it. */
  function ContextStart(total: nat, contextSize: int): (start: int)
    ensures 0 <= start
    ensures contextSize >= 0 ==> start <= total
    ensures forall i :: 0 <= i ==> (InContext(i, total, contextSize) <==> start <= i)
  {
    if total - contextSize > 0 then total - contextSize else 0
  }

  /** The in-context positions of `[0, total)` form a contiguous suffix: none
      for a window of 0, all of them for a window of at least `total`. */
  lemma WindowIsSuffix(total: nat, contextSize: nat, i: int, j: int)
    requires 0 <= i <= j < total
    ensures InContext(i, total, contextSize) ==> InContext(j, total, contextSize)
    ensures contextSize == 0 ==> !InContext(j, total, contextSize)
    ensures contextSize >= total ==> InContext(i, total, contextSize)
  {
  }

  /** Python's `s[k:]`, negative `k` counting from the end and both clamped
      to the sequence. */
  function PyTail<T>(s: seq<T>, k: int): (r: seq<T>)
    ensures k < 0 ==> |r| == Min(-k, |s|) && r == s[|s| - |r|..]
    ensures k >= 0 ==> r == s[Min(k, |s|)..]
  {
    var start :=
      if k >= 0 then (if k <= |s| then k else |s|)
      else (if -k <= |s| then |s| + k else 0);
    s[start..]
  }

  /** For a window of 0 the slice `history[-0:]` would be the whole
      history, yet nothing is sent: the zero window is handled before
      slicing, and the context is empty however long the history is. */
  lemma NegativeZeroTailIsWhole(history: seq<Turn>, shown: seq<string>, contextSize: nat)
    requires contextSize == 0 && history != []
    ensures PyTail(history, -(contextSize as int)) == history
    ensures ContextMessages(history, shown, contextSize) == []
    ensures |ContextMessages(history, shown, contextSize)| < |PyTail(history, -(contextSize as int))|
  {
  }

  /** The turn at position `d` with the content its widget shows, when there
      is a widget for it, and with its recorded content otherwise. */
  function Resolve(history: seq<Turn>, shown: seq<string>, d: nat): (t: Turn)
    requires d < |history|
    ensures t.role == history[d].role
    ensures t.content == if d < |shown| then shown[d] else history[d].content
  {
    if d < |shown| then Turn(history[d].role, shown[d]) else history[d]
  }

  /** The last `contextSize` turns (all of them if there are fewer, none for
      a window of 0), each resolved against the display. */
  function ContextMessages(history: seq<Turn>, shown: seq<string>, contextSize: nat): (msgs: seq<Turn>)
    ensures |msgs| == if contextSize == 0 then 0 else Min(contextSize, |history|)
    ensures forall k :: 0 <= k < |msgs| ==>
      msgs[k].role == history[|history| - |msgs| + k].role
    ensures forall k :: 0 <= k < |msgs| ==>
      msgs[k].content ==
        var d := |history| - |msgs| + k;
        if d < |shown| then shown[d] else history[d].content
  {
    var n := if contextSize == 0 then 0 else Min(contextSize, |history|);
    var msgs := seq(n, k requires 0 <= k < n => Resolve(history, shown, |history| - n + k));
    assert forall k :: 0 <= k < |msgs| ==> msgs[k] == Resolve(history, shown, |history| - n + k);
    msgs
  }

  /** The turns sent as context are exactly those the display marks as in
      context (for a display that has one widget per turn). */
  lemma ContextMatchesIndicators(history: seq<Turn>, shown: seq<string>, contextSize: nat, d: int)
    requires 0 <= d < |history|
    ensures InContext(d, |history|, contextSize)
        <==> |history| - |ContextMessages(history, shown, contextSize)| <= d
  {
  }

  /** Turn `k` of the context, as one value. */
  lemma ContextTurn(history: seq<Turn>, shown: seq<string>, contextSize: nat, k: nat)
    requires k < |ContextMessages(history, shown, contextSize)|
    ensures var msgs := ContextMessages(history, shown, contextSize);
      msgs[k] == Resolve(history, shown, |history| - |msgs| + k)
  {
  }

  /** Every turn resolved against the display: what a save writes out. */
  function MergedHistory(history: seq<Turn>, shown: seq<string>): (merged: seq<Turn>)
    ensures |merged| == |history|
    ensures forall d :: 0 <= d < |merged| ==> merged[d].role == history[d].role
    ensures forall d :: 0 <= d < |merged| && |shown| <= d ==> merged[d] == history[d]
    ensures forall d :: 0 <= d < |merged| && d < |shown| ==> merged[d].content == shown[d]
  {
    seq(|history|, d requires 0 <= d < |history| => Resolve(history, shown, d))
  }

  /** The context is the tail of the merged history: the same edited
      contents a save writes out. */
  lemma {:induction false} ContextIsTailOfMerged(history: seq<Turn>, shown: seq<string>, contextSize: nat)
    ensures var ctx := ContextMessages(history, shown, contextSize);
      ctx == MergedHistory(history, shown)[|history| - |ctx|..]
  {
    var ctx := ContextMessages(history, shown, contextSize);
    var tail := MergedHistory(history, shown)[|history| - |ctx|..];
    assert |tail| == |ctx|;
    forall k | 0 <= k < |ctx| ensures ctx[k] == tail[k] {
      assert tail[k] == MergedHistory(history, shown)[|history| - |ctx| + k];
    }
  }

  /** A display that shows every turn unedited changes nothing. */
  lemma {:induction false} MergeOfUneditedIsHistory(history: seq<Turn>, shown: seq<string>)
    requires |shown| >= |history|
    requires forall d :: 0 <= d < |history| ==> shown[d] == history[d].content
    ensures MergedHistory(history, shown) == history
  {
    var merged := MergedHistory(history, shown);
    forall d | 0 <= d < |history| ensures merged[d] == history[d] {
      assert merged[d].role == history[d].role && merged[d].content == history[d].content;
    }
  }

  /** Editing what widget `i` shows changes the context of the next send at
      exactly turn `i`, and only when `i` is in the window. */
  lemma {:induction false} EditReachesContextIffInWindow(
    history: seq<Turn>, shown: seq<string>, contextSize: nat, i: nat, c: string)
    requires i < |shown| && i < |history|
    ensures var before := ContextMessages(history, shown, contextSize);
      var after := ContextMessages(history, shown[i := c], contextSize);
      && |after| == |before|
      && (InContext(i, |history|, contextSize) ==>
            after == before[i - (|history| - |before|) := Turn(history[i].role, c)])
      && (!InContext(i, |history|, contextSize) ==> after == before)
  {
    ContextMatchesIndicators(history, shown, contextSize, i);
    if InContext(i, |history|, contextSize) {
      EditInWindow(history, shown, contextSize, i, c);
    } else {
      EditOutsideWindow(history, shown, contextSize, i, c);
    }
  }

  /** An edit inside the window replaces exactly its turn of the context. */
  lemma {:induction false} EditInWindow(
    history: seq<Turn>, shown: seq<string>, contextSize: nat, i: nat, c: string)
    requires i < |shown| && i < |history|
    requires |history| - |ContextMessages(history, shown, contextSize)| <= i
    ensures var before := ContextMessages(history, shown, contextSize);
      ContextMessages(history, shown[i := c], contextSize)
        == before[i - (|history| - |before|) := Turn(history[i].role, c)]
  {
    var before := ContextMessages(history, shown, contextSize);
    var after := ContextMessages(history, shown[i := c], contextSize);
    var expected := before[i - (|history| - |before|) := Turn(history[i].role, c)];
    forall k | 0 <= k < |after| ensures after[k] == expected[k] {
      EditedContextTurn(history, shown, contextSize, i, c, k);
    }
  }

  /** An edit outside the window leaves the context as it was. */
  lemma {:induction false} EditOutsideWindow(
    history: seq<Turn>, shown: seq<string>, contextSize: nat, i: nat, c: string)
    requires i < |shown| && i < |history|
    requires i < |history| - |ContextMessages(history, shown, contextSize)|
    ensures ContextMessages(history, shown[i := c], contextSize) == ContextMessages(history, shown, contextSize)
  {
    var before := ContextMessages(history, shown, contextSize);
    var after := ContextMessages(history, shown[i := c], contextSize);
    forall k | 0 <= k < |after| ensures after[k] == before[k] {
      EditedContextTurn(history, shown, contextSize, i, c, k);
    }
  }

  /** Turn `k` of the context after widget `i` is edited to `c`. */
  lemma EditedContextTurn(
    history: seq<Turn>, shown: seq<string>, contextSize: nat, i: nat, c: string, k: nat)
    requires i < |shown| && i < |history|
    requires k < |ContextMessages(history, shown, contextSize)|
    ensures var before := ContextMessages(history, shown, contextSize);
      var after := ContextMessages(history, shown[i := c], contextSize);
      && k < |after|
      && after[k] == if |history| - |before| + k == i then Turn(history[i].role, c) else before[k]
  {
    ContextTurn(history, shown[i := c], contextSize, k);
    ContextTurn(history, shown, contextSize, k);
    ResolveAfterEdit(history, shown, i, c, |history| - |ContextMessages(history, shown, contextSize)| + k);
  }

  /** An edit of widget `i` changes how turn `i` resolves and no other. */
  lemma ResolveAfterEdit(history: seq<Turn>, shown: seq<string>, i: nat, c: string, d: nat)
    requires i < |shown| && d < |history|
    ensures Resolve(history, shown[i := c], d) ==
      if d == i then Turn(history[i].role, c) else Resolve(history, shown, d)
  {
  }

  /** Five turns with a window of three: turns 2, 3 and 4 are in context;
      after a sixth turn, turns 3, 4 and 5. */
  lemma WindowScenario()
    ensures ContextStart(5, 3) == 2 && ContextStart(6, 3) == 3
  {
  }
}
