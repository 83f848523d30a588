/**
  The editing panel of src/panel.rs: a sequence of logical lines edited at the
  cursor's line, and the loops that reflow one logical line into physical lines.
*/
module Panels {
  import opened Wrappers
  import opened LineWrap
  import opened Cursors
  import opened Documents

  /** `String::pop`: drop the last character, if there is one. */
  function Pop(t: string): (r: string)
    ensures t == [] ==> r == []
    ensures t != [] ==> r + [t[|t| - 1]] == t
  {
    if t == [] then [] else t[..|t| - 1]
  }

  /** `amount` successive pops: the longest prefix of `t` that is `amount` characters shorter, or empty. */
  function PopN(t: string, amount: nat): (r: string)
    ensures |r| == if amount < |t| then |t| - amount else 0
    ensures r == t[..|r|]
  {
    if amount == 0 then t else PopN(Pop(t), amount - 1)
  }

  /** A stored paragraph of text; the physical lines of its text are computed on demand. */
  datatype LogicalLine = LogicalLine(text: string)
  {
    /**
      `get_physical_line`: one greedy pass from `start`. The end offset is the
      break point of that pass, and the returned slice is `text[start..end]`.
    */
    method GetPhysicalLine(start: nat, measure: Measurer, width: int) returns (end: nat, line: string)
      requires start <= |text|
      requires IsAscii(text)
      ensures IsLineEnd(measure, width, text, start, end)
      ensures end == LineEnd(measure, width, text, start)
      ensures line == text[start..end]
    {
      var candidate: string := [];
      end := start;
      while end < |text|
        invariant start <= end <= |text|
        invariant candidate == text[start..end]
        invariant forall k :: start < k <= end ==> !Overflows(measure, width, text[start..k])
      {
        var c := text[end];
        end := end + 1;
        candidate := candidate + [c];
        match measure(candidate) {
          case Some(w) =>
            if w > width {
              break;
            }
          case None =>
        }
      }
      LineEndCharacterization(measure, width, text, start, end);
      line := text[start..end];
    }

    /**
      `get_physical_lines`: the first pass is always taken, and further passes
      follow while the previous one ended before the end of the text.
    */
    method GetPhysicalLines(measure: Measurer, width: int) returns (lines: seq<string>)
      requires IsAscii(text)
      ensures lines == Wrap(measure, width, text)
      ensures IsWrap(measure, width, text, lines)
    {
      var end, line := GetPhysicalLine(0, measure, width);
      lines := [line];
      while end < |text|
        invariant end <= |text|
        invariant lines + (if end < |text| then WrapFrom(measure, width, text, end) else [])
                  == Wrap(measure, width, text)
        decreases |text| - end
      {
        var next, piece := GetPhysicalLine(end, measure, width);
        lines := lines + [piece];
        end := next;
      }
      WrapCharacterization(measure, width, text, lines);
    }
  }

  /** `LogicalLine::new`: an empty line. */
  function NewLogicalLine(): (l: LogicalLine)
    ensures l.text == ""
  {
    LogicalLine("")
  }

  /** No logical line holds a line-break character. */
  predicate NoLineBreaks(lines: seq<LogicalLine>)
  {
    forall i :: 0 <= i < |lines| ==> LineBreakFree(lines[i].text)
  }

  class Panel {
    /** Built with the panel but never read or written by the edits, which go to `lines`. */
    var document: Document
    var cursor: Cursor
    var lines: seq<LogicalLine>

    /** The index of the logical line that receives edits. */
    function LineNum(): nat
      reads this
    {
      cursor.position.lineNum
    }

    /** `Panel::new`: one empty logical line, a cursor at the origin, a fresh document. */
    constructor ()
      ensures lines == [NewLogicalLine()]
      ensures cursor == NewCursor()
      ensures document == NewDocument()
      ensures LineNum() < |lines|
      ensures NoLineBreaks(lines)
    {
      document := NewDocument();
      cursor := NewCursor();
      lines := [NewLogicalLine()];
    }

    /**
      `add_text`: append `s` verbatim to the cursor's line; no line splitting.
      The line lookup is unwrapped, so the cursor's line must exist.
    */
    method AddText(s: string)
      requires LineNum() < |lines|
      modifies this`lines
      ensures |lines| == |old(lines)|
      ensures lines[LineNum()].text == old(lines[LineNum()].text) + s
      ensures forall j :: 0 <= j < |lines| && j != LineNum() ==> lines[j] == old(lines[j])
      ensures NoLineBreaks(lines) <==> NoLineBreaks(old(lines)) && LineBreakFree(s)
    {
      var n := LineNum();
      var before := lines;
      lines := lines[n := LogicalLine(lines[n].text + s)];
      if NoLineBreaks(lines) {
        forall i | 0 <= i < |before|
          ensures LineBreakFree(before[i].text)
        {
          assert LineBreakFree(lines[i].text);
          if i == n {
            assert forall j :: 0 <= j < |before[i].text| ==> before[i].text[j] == lines[n].text[j];
          }
        }
        assert forall j :: 0 <= j < |s| ==> s[j] == lines[n].text[|before[n].text| + j];
      }
    }

    /**
      `remove_text` as written: its loop runs over a one-element array holding
      the range, so the body pops once whatever `amount` is.
    */
    method RemoveText(amount: nat)
      requires LineNum() < |lines|
      modifies this`lines
      ensures |lines| == |old(lines)|
      ensures lines[LineNum()].text == Pop(old(lines[LineNum()].text))
      ensures forall j :: 0 <= j < |lines| && j != LineNum() ==> lines[j] == old(lines[j])
      ensures old(NoLineBreaks(lines)) ==> NoLineBreaks(lines)
    {
      var n := LineNum();
      lines := lines[n := LogicalLine(Pop(lines[n].text))];
    }

    /** `remove_text` as evidently intended: pop `amount` times, each pop a no-op on an empty line. */
    method RemoveTextIntended(amount: nat)
      requires LineNum() < |lines|
      modifies this`lines
      ensures |lines| == |old(lines)|
      ensures lines[LineNum()].text == PopN(old(lines[LineNum()].text), amount)
      ensures forall j :: 0 <= j < |lines| && j != LineNum() ==> lines[j] == old(lines[j])
      ensures old(NoLineBreaks(lines)) ==> NoLineBreaks(lines)
    {
      var n := LineNum();
      var original := lines[n].text;
      var t := original;
      for i := 0 to amount
        invariant |t| == if i < |original| then |original| - i else 0
        invariant t == original[..|t|]
      {
        t := Pop(t);
      }
      lines := lines[n := LogicalLine(t)];
    }
  }

  /** A fresh panel's cursor addresses its one line, so text can be added at once: "hi" then "!" reads "hi!". */
  method AddTextScenario() returns (line: string, count: nat)
    ensures line == "hi!"
    ensures count == 1
  {
    var panel := new Panel();
    panel.AddText("hi");
    panel.AddText("!");
    line := panel.lines[0].text;
    count := |panel.lines|;
  }

  /** From the line "ab", removing 5 characters leaves "a" as written, and "" as intended. */
  method RemoveTextScenario() returns (asWritten: string, intended: string)
    ensures asWritten == "a"
    ensures intended == ""
  {
    var panel := new Panel();
    panel.AddText("ab");
    panel.RemoveText(5);
    asWritten := panel.lines[0].text;
    var other := new Panel();
    other.AddText("ab");
    other.RemoveTextIntended(5);
    intended := other.lines[0].text;
  }
}
