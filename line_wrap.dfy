/**
  The reflow algorithm of `LogicalLine` (src/panel.rs), stated as pure functions.

  A logical line's text is cut into physical lines greedily: a pass starting at
  offset `start` takes characters one at a time and stops right after the first
  character whose inclusion makes the measured width exceed the target width.
  That character stays on the line it overflowed. A failed measurement never
  breaks a line. Offsets are character offsets.
*/
module LineWrap {
  import opened Wrappers

  /** The width capability `glyphs.width(font_size, .)`; `None` when measuring fails. */
  type Measurer = seq<char> -> Option<int>

  /** Measuring `s` succeeded and gave a width strictly greater than `width`. */
  predicate Overflows(measure: Measurer, width: int, s: seq<char>)
  {
    match measure(s)
    case Some(w) => w > width
    case None => false
  }

  /** Every character of `s` is a single UTF-8 byte, so character and byte offsets agree. */
  predicate IsAscii(s: seq<char>)
  {
    forall i :: 0 <= i < |s| ==> (s[i] as int) < 128
  }

  /**
    Reference definition of where a pass that starts at `start` ends: at least one
    character is taken when one is left, no shorter non-empty candidate overflowed,
    and the pass stops before the end of the text only on an overflow.
  */
  predicate IsLineEnd(measure: Measurer, width: int, text: seq<char>, start: nat, e: nat)
  {
    start <= e <= |text|
    && (start < |text| ==> start < e)
    && (forall k :: start < k < e ==> !Overflows(measure, width, text[start..k]))
    && (e < |text| ==> Overflows(measure, width, text[start..e]))
  }

  /** The scan of one pass: the candidate `text[start..end]` has just been extended and measured. */
  function ScanEnd(measure: Measurer, width: int, text: seq<char>, start: nat, end: nat): (e: nat)
    requires start < end <= |text|
    ensures end <= e <= |text|
    ensures e < |text| ==> Overflows(measure, width, text[start..e])
    decreases |text| - end
  {
    if end == |text| || Overflows(measure, width, text[start..end]) then end
    else ScanEnd(measure, width, text, start, end + 1)
  }

  /** The end offset that `get_physical_line(start)` returns. */
  function LineEnd(measure: Measurer, width: int, text: seq<char>, start: nat): (e: nat)
    requires start <= |text|
    ensures start <= e <= |text|
    ensures start < |text| ==> start < e
  {
    if start == |text| then start else ScanEnd(measure, width, text, start, start + 1)
  }

  /** The physical lines that `get_physical_lines` collects from the pass at `start` on. */
  function WrapFrom(measure: Measurer, width: int, text: seq<char>, start: nat): (lines: seq<seq<char>>)
    requires start <= |text|
    decreases |text| - start
  {
    var e := LineEnd(measure, width, text, start);
    [text[start..e]] + (if e < |text| then WrapFrom(measure, width, text, e) else [])
  }

  /** The physical lines of a whole logical line. */
  function Wrap(measure: Measurer, width: int, text: seq<char>): (lines: seq<seq<char>>)
    ensures text == [] ==> lines == [[]]
    ensures |lines| >= 1
  {
    WrapFrom(measure, width, text, 0)
  }

  /** The text that a sequence of physical lines spells out. */
  function Concat(lines: seq<seq<char>>): (s: seq<char>)
  {
    if lines == [] then [] else lines[0] + Concat(lines[1..])
  }

  /** No non-empty proper prefix of `line` overflows. */
  predicate Fits(measure: Measurer, width: int, line: seq<char>)
  {
    forall k :: 0 < k < |line| ==> !Overflows(measure, width, line[..k])
  }

  /**
    Reference definition of a correct reflow of `text`: the lines spell out `text`,
    an empty text gives one empty line, otherwise no line is empty, no line has an
    overflowing proper prefix, and every line but the last overflows.
  */
  predicate IsWrap(measure: Measurer, width: int, text: seq<char>, lines: seq<seq<char>>)
  {
    Concat(lines) == text
    && (text == [] ==> lines == [[]])
    && (text != [] ==> forall i :: 0 <= i < |lines| ==> lines[i] != [])
    && (forall i :: 0 <= i < |lines| ==> Fits(measure, width, lines[i]))
    && (forall i :: 0 <= i < |lines| - 1 ==> Overflows(measure, width, lines[i]))
  }

  /** The scan of a pass ends at the break point that `IsLineEnd` describes. */
  lemma {:induction false} ScanEndIsLineEnd(measure: Measurer, width: int, text: seq<char>, start: nat, end: nat)
    requires start < end <= |text|
    requires forall k :: start < k < end ==> !Overflows(measure, width, text[start..k])
    ensures IsLineEnd(measure, width, text, start, ScanEnd(measure, width, text, start, end))
    decreases |text| - end
  {
    if end < |text| && !Overflows(measure, width, text[start..end]) {
      ScanEndIsLineEnd(measure, width, text, start, end + 1);
    }
  }

  /** `LineEnd` is exactly the break point: it satisfies `IsLineEnd`, and nothing else does. */
  lemma LineEndCharacterization(measure: Measurer, width: int, text: seq<char>, start: nat, e: nat)
    requires start <= |text|
    ensures IsLineEnd(measure, width, text, start, e) <==> e == LineEnd(measure, width, text, start)
  {
    if start < |text| {
      ScanEndIsLineEnd(measure, width, text, start, start + 1);
    }
  }

  lemma ConcatPrepend(line: seq<char>, rest: seq<seq<char>>)
    ensures Concat([line] + rest) == line + Concat(rest)
  {
  }

  /** The passes from `start` on reflow the rest of the text correctly. */
  lemma {:induction false} WrapFromIsWrap(measure: Measurer, width: int, text: seq<char>, start: nat)
    requires start <= |text|
    ensures IsWrap(measure, width, text[start..], WrapFrom(measure, width, text, start))
    decreases |text| - start
  {
    var e := LineEnd(measure, width, text, start);
    var line := text[start..e];
    var lines := WrapFrom(measure, width, text, start);
    LineEndCharacterization(measure, width, text, start, e);
    forall k | 0 < k < |line|
      ensures !Overflows(measure, width, line[..k])
    {
      assert line[..k] == text[start..start + k];
    }
    if e < |text| {
      var rest := WrapFrom(measure, width, text, e);
      WrapFromIsWrap(measure, width, text, e);
      assert lines == [line] + rest;
      ConcatPrepend(line, rest);
      assert text[start..] == line + text[e..];
      forall i | 0 <= i < |lines|
        ensures lines[i] != [] && Fits(measure, width, lines[i])
      {
        if i > 0 { assert lines[i] == rest[i - 1]; }
      }
      forall i | 0 <= i < |lines| - 1
        ensures Overflows(measure, width, lines[i])
      {
        if i > 0 { assert lines[i] == rest[i - 1]; }
      }
    } else {
      assert lines == [line];
      ConcatPrepend(line, []);
      assert text[start..] == line;
    }
  }

  /** Any correct reflow of the rest of the text is the one the passes from `start` produce. */
  lemma {:induction false} WrapFromUnique(measure: Measurer, width: int, text: seq<char>, start: nat, lines: seq<seq<char>>)
    requires start <= |text|
    requires IsWrap(measure, width, text[start..], lines)
    ensures lines == WrapFrom(measure, width, text, start)
    decreases |lines|
  {
    if start == |text| {
      assert text[start..] == [];
    } else {
      assert Concat([]) == [];
      assert lines != [];
      var line := lines[0];
      var rest := lines[1..];
      assert lines == [line] + rest;
      ConcatPrepend(line, rest);
      var e := start + |line|;
      assert text[start..] == line + Concat(rest);
      assert line == text[start..e] && Concat(rest) == text[e..];
      assert line != [];
      forall k | start < k < e
        ensures !Overflows(measure, width, text[start..k])
      {
        assert text[start..k] == line[..k - start];
      }
      if e < |text| {
        assert rest != [];
        assert Overflows(measure, width, lines[0]);
      }
      assert IsLineEnd(measure, width, text, start, e);
      LineEndCharacterization(measure, width, text, start, e);
      if e < |text| {
        forall i | 0 <= i < |rest| - 1
          ensures Overflows(measure, width, rest[i])
        {
          assert rest[i] == lines[i + 1];
        }
        forall i | 0 <= i < |rest|
          ensures rest[i] != [] && Fits(measure, width, rest[i])
        {
          assert rest[i] == lines[i + 1];
        }
        WrapFromUnique(measure, width, text, e, rest);
      } else {
        ConcatLength(rest);
        assert lines == [text[start..e]];
      }
    }
  }

  /** `Wrap` is the one correct reflow of `text`: the two directions of the characterisation. */
  lemma WrapCharacterization(measure: Measurer, width: int, text: seq<char>, lines: seq<seq<char>>)
    ensures IsWrap(measure, width, text, lines) <==> lines == Wrap(measure, width, text)
  {
    assert text[0..] == text;
    WrapFromIsWrap(measure, width, text, 0);
    if IsWrap(measure, width, text, lines) {
      WrapFromUnique(measure, width, text, 0, lines);
    }
  }

  lemma {:induction false} ConcatLength(lines: seq<seq<char>>)
    requires forall i :: 0 <= i < |lines| ==> lines[i] != []
    ensures |lines| <= |Concat(lines)|
  {
    if lines != [] {
      ConcatLength(lines[1..]);
    }
  }

  /** A non-empty logical line gives between one and `|text|` physical lines, none empty, spelling out `text`. */
  lemma WrapPartition(measure: Measurer, width: int, text: seq<char>)
    requires text != []
    ensures var lines := Wrap(measure, width, text);
      Concat(lines) == text
      && 1 <= |lines| <= |text|
      && forall i :: 0 <= i < |lines| ==> lines[i] != []
  {
    var lines := Wrap(measure, width, text);
    WrapCharacterization(measure, width, text, lines);
    ConcatLength(lines);
  }

  /** The fail-open rule: a measurer that never succeeds never breaks a line. */
  lemma NeverMeasuredNeverBreaks(measure: Measurer, width: int, text: seq<char>)
    requires forall s :: measure(s) == None
    ensures Wrap(measure, width, text) == [text]
  {
    ConcatPrepend(text, []);
    assert [text] + [] == [text];
    assert Concat([]) == [];
    WrapCharacterization(measure, width, text, [text]);
  }

  /** A measurer that gives every character width one. */
  function UnitWidth(s: seq<char>): Option<int>
  {
    Some(|s|)
  }

  /** With unit-width characters and target width 3, "abcde" wraps as "abcd" (the fourth character overflows and stays) and "e". */
  lemma OverflowingCharacterStays()
    ensures Wrap(UnitWidth, 3, "abcde") == ["abcd", "e"]
  {
    var lines := ["abcd", "e"];
    ConcatPrepend("e", []);
    ConcatPrepend("abcd", ["e"]);
    assert lines == ["abcd"] + ["e"];
    assert Concat(lines) == "abcde";
    WrapCharacterization(UnitWidth, 3, "abcde", lines);
  }

  /** A pass whose first character alone already exceeds the target width takes exactly that character. */
  lemma WideCharacterGetsOwnLine(measure: Measurer, width: int, text: seq<char>, start: nat)
    requires start < |text|
    requires Overflows(measure, width, text[start..start + 1])
    ensures LineEnd(measure, width, text, start) == start + 1
  {
  }

  /** With unit-width characters and target width 0, "ab" wraps as "a" and "b". */
  lemma WideCharactersExample()
    ensures Wrap(UnitWidth, 0, "ab") == ["a", "b"]
  {
    var lines := ["a", "b"];
    ConcatPrepend("b", []);
    ConcatPrepend("a", ["b"]);
    assert lines == ["a"] + ["b"];
    WrapCharacterization(UnitWidth, 0, "ab", lines);
  }
}
