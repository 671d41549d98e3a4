/** The multi-line message input: Return submits, Shift-Return inserts a
    line break, and the box grows with its content between 2 and 12 rows,
    counting one extra row for every 50 characters of a line. */
module MultilineInput {
  import opened Text

  /** The key sequences the widget handles itself and refuses to rebind. */
  const ReturnSequences: seq<string> := ["<Return>", "<Shift-Return>", "<KP_Enter>", "<Shift-KP_Enter>"]

  predicate IsReturnSequence(sequence: string) {
    sequence in ReturnSequences
  }

  /** `s` with `t` inserted at position `pos`, as Tk inserts at the cursor. */
  function InsertAt(s: string, pos: nat, t: string): (r: string)
    requires pos <= |s|
    ensures |r| == |s| + |t|
    ensures r[..pos] == s[..pos] && r[pos..pos + |t|] == t && r[pos + |t|..] == s[pos..]
  {
    s[..pos] + t + s[pos..]
  }

  /** Extra rows for wrapped lines: `len(line) // 50` for each line. */
  function WrapRows(lines: seq<string>): nat
    decreases |lines|
  {
    if lines == [] then 0 else WrapRows(lines[..|lines| - 1]) + |lines[|lines| - 1]| / 50
  }

  /** The rows the content needs before clamping: one per line plus the
      wrapping rows. */
  function RowCount(content: string): nat {
    var lines := Split(content, '\n');
    |lines| + WrapRows(lines)
  }

  /** The box height for a row count, `min(max(2, rows), 12)`. */
  function InputHeight(rows: int): (h: int)
    ensures 2 <= h <= 12
    ensures 2 <= rows <= 12 ==> h == rows
    ensures rows < 2 ==> h == 2
    ensures rows > 12 ==> h == 12
  {
    var atLeast := if 2 < rows then rows else 2;
    if atLeast < 12 then atLeast else 12
  }

  /** A line contributes at most one wrapping row per 50 characters. */
  lemma {:induction false} WrapRowsBound(lines: seq<string>)
    ensures 50 * WrapRows(lines) <= TotalLength(lines)
    decreases |lines|
  {
    if lines != [] {
      var init := lines[..|lines| - 1];
      WrapRowsBound(init);
      TotalLengthSnoc(init, lines[|lines| - 1]);
      assert init + [lines[|lines| - 1]] == lines;
    }
  }

  /** Lines all shorter than 50 characters need no wrapping rows. */
  lemma {:induction false} ShortLinesDoNotWrap(lines: seq<string>)
    requires forall k :: 0 <= k < |lines| ==> |lines[k]| < 50
    ensures WrapRows(lines) == 0
    decreases |lines|
  {
    if lines != [] {
      ShortLinesDoNotWrap(lines[..|lines| - 1]);
    }
  }

  /** One row per line at least, and one more per 50 characters at most:
      `1 + breaks <= rows <= 1 + breaks + (|content| - breaks) / 50`. */
  lemma RowCountBounds(content: string)
    ensures RowCount(content) >= Count(content, '\n') + 1
    ensures 50 * (RowCount(content) - Count(content, '\n') - 1) <= |content| - Count(content, '\n')
  {
    var lines := Split(content, '\n');
    SplitLength(content, '\n');
    JoinSplit(content, '\n');
    JoinLength(lines, "\n");
    WrapRowsBound(lines);
  }

  /** A content whose lines are all shorter than 50 characters needs exactly
      one row per line. */
  lemma RowCountOfShortLines(content: string)
    requires forall k :: 0 <= k < |Split(content, '\n')| ==> |Split(content, '\n')[k]| < 50
    ensures RowCount(content) == Count(content, '\n') + 1
  {
    SplitLength(content, '\n');
    ShortLinesDoNotWrap(Split(content, '\n'));
  }

  /** The row count of `_adjust_height`: the number of lines, then
      `len(line) // 50` added for each line in turn. */
  method CountRows(content: string) returns (rows: nat)
    ensures rows == RowCount(content)
  {
    var lines := Split(content, '\n');
    rows := |lines|;
    var i := 0;
    while i < |lines|
      invariant 0 <= i <= |lines|
      invariant rows == |lines| + WrapRows(lines[..i])
    {
      assert lines[..i + 1][..i] == lines[..i];
      rows := rows + |lines[i]| / 50;
      i := i + 1;
    }
    assert lines[..|lines|] == lines;
  }

  class MultilineInput {
    /** The text in the box. */
    var content: string
    /** The insertion cursor. */
    var cursor: nat
    /** The content the height was last computed for. */
    var lastContent: string
    /** The box height in rows. */
    var height: int
    /** Whether an `on_submit` callback was given. */
    const hasOnSubmit: bool
    /** The sequences passed on to the inner text widget by `Bind`, in order. */
    var bindings: seq<string>

    ghost predicate Valid()
      reads this
    {
      cursor <= |content| && 2 <= height <= 12
    }

    constructor (hasOnSubmit: bool)
      ensures Valid()
      ensures this.hasOnSubmit == hasOnSubmit
      ensures content == "" && cursor == 0 && lastContent == "" && height == 2 && bindings == []
    {
      this.hasOnSubmit := hasOnSubmit;
      content := "";
      cursor := 0;
      lastContent := "";
      height := 2;
      bindings := [];
    }

    /** Keystrokes the text widget handles itself: `text` is inserted at the
        cursor, which moves past it. */
    method Type(text: string)
      requires Valid()
      modifies this`content, this`cursor
      ensures Valid()
      ensures content == InsertAt(old(content), old(cursor), text)
      ensures cursor == old(cursor) + |text|
    {
      content := InsertAt(content, cursor, text);
      cursor := cursor + |text|;
    }

    /** Return submits when there is a callback and the content is not
        blank, and always stops Tk's own handling. */
    method HandleReturn() returns (submit: bool, result: string)
      ensures submit <==> hasOnSubmit && !AllSpace(content)
      ensures result == "break"
    {
      var current := Get();
      StripEmptyIff(current);
      submit := hasOnSubmit && Strip(current) != "";
      result := "break";
    }

    /** Shift-Return inserts one line break at the cursor, leaves the
        cursor just after it, and never submits. */
    method HandleShiftReturn() returns (result: string)
      requires Valid()
      modifies this`content, this`cursor
      ensures Valid()
      ensures content == InsertAt(old(content), old(cursor), "\n")
      ensures cursor == old(cursor) + 1
      ensures Count(content, '\n') == Count(old(content), '\n') + 1
      ensures result == "break"
    {
      CountConcat(content[..cursor], "\n", '\n');
      CountConcat(content[..cursor] + "\n", content[cursor..], '\n');
      CountConcat(content[..cursor], content[cursor..], '\n');
      assert content[..cursor] + content[cursor..] == content;
      content := InsertAt(content, cursor, "\n");
      cursor := cursor + 1;
      result := "break";
    }

    /** Every key release re-sizes the box. */
    method HandleKeyRelease()
      requires Valid()
      modifies this`lastContent, this`height
      ensures Valid()
      ensures lastContent == content
      ensures old(content != lastContent) ==> height == InputHeight(RowCount(content))
      ensures old(content == lastContent) ==> height == old(height)
    {
      AdjustHeight();
    }

    /** Re-sizes the box to its content, between 2 and 12 rows, but only
        when the content changed since the last time. */
    method AdjustHeight()
      requires Valid()
      modifies this`lastContent, this`height
      ensures Valid()
      ensures lastContent == content
      ensures old(content != lastContent) ==> height == InputHeight(RowCount(content))
      ensures old(content == lastContent) ==> height == old(height)
    {
      if content != lastContent {
        lastContent := content;
        var rows := CountRows(content);
        height := InputHeight(rows);
      }
    }

    /** The content of the box. */
    method Get() returns (c: string)
      ensures c == content
    {
      c := content;
    }

    /** Clearing the box also resets its height and the change guard. */
    method Delete()
      modifies this`content, this`cursor, this`lastContent, this`height
      ensures Valid()
      ensures content == "" && cursor == 0 && lastContent == "" && height == 2
    {
      content := "";
      cursor := 0;
      lastContent := "";
      height := 2;
    }

    /** Binding from outside: the four Return sequences are ignored, every
        other sequence is passed on to the text widget. */
    method Bind(sequence: string)
      modifies this`bindings
      ensures IsReturnSequence(sequence) ==> bindings == old(bindings)
      ensures !IsReturnSequence(sequence) ==> bindings == old(bindings) + [sequence]
    {
      if IsReturnSequence(sequence) {
        return;
      }
      bindings := bindings + [sequence];
    }
  }
}
