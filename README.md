# Text model of a single-panel text editor

This project models the text core of a small Rust text editor. The core is a
`Panel` that owns a sequence of logical lines and a cursor. Typed text is
appended to the cursor's line, and Backspace pops characters from it. For
display, each logical line is reflowed into physical lines no wider than a
target width. The reflow is greedy: characters are added one at a time, and a
line ends right after the character whose inclusion makes the measured width
exceed the target. That character stays on the line it overflowed. A failed
measurement never breaks a line.

Modules, one per source file or component:

- `Wrappers`: the `Option` datatype.
- `Cursors` (src/cursor.rs): `CursorPosition` with two `u32` coordinates, modelled by the subset type `U32` = [0, 2^32), and `Cursor`.
- `Documents` (src/document.rs): the `Document` record and `Document::new`.
- `LineWrap` (src/panel.rs): the reflow as pure functions. `LineEnd` gives where one pass ends, and `Wrap` gives all physical lines. Two independent reference definitions stand beside them: `IsLineEnd` (the break rule) and `IsWrap` (a correct reflow). Lemmas prove that each function meets its reference definition and is the only thing that does.
- `Panels` (src/panel.rs): the `Panel` class, whose `lines` field the edit methods update in place. It also holds the `LogicalLine` datatype, whose two read-only methods are the loops of `get_physical_line` and `get_physical_lines`, proved against `LineEnd`/`IsLineEnd` and `Wrap`/`IsWrap`.

The font-metrics call `glyphs.width(font_size, s)` is external. It becomes a
parameter `measure: seq<char> -> Option<int>`, where `None` stands for an
`Err`, and the target width is an integer. The comparison is strict (`>`), as
in the code. No monotonicity of the measurer is assumed.

The editor's design asks for an out-of-range cursor to be reported as a
recoverable error. The code instead `unwrap`s the line lookup and panics.
The model follows the code: `AddText` and `RemoveText` require that the
cursor's line exists.

## Model

| member | source | states |
|---|---|---|
| `Cursors.NewCursorPosition` | src/cursor.rs:22-27 | a fresh position is line 0, column 0 (both `u32` by type) |
| `Cursors.NewCursor` | src/cursor.rs:14-18 | a fresh cursor holds exactly a fresh position, so it points at line 0 |
| `Documents.NewDocument` | src/document.rs:8-13 | a fresh document has path "test.txt", exactly one line, that line is "", and no line holds a line break |
| `LineWrap.ScanEnd` | src/panel.rs:105-113 | a scan that has taken `text[start..end]` stops at some offset in [end, \|text\|], and if it stops before the end of the text, the measured candidate overflowed |
| `LineWrap.LineEnd` | src/panel.rs:99-113 | a pass ends in [start, \|text\|] and takes at least one character when one is left, because `end` is incremented before measuring |
| `LineWrap.ScanEndIsLineEnd` | src/panel.rs:105-113 | a scan that started with no overflowing candidate ends at a break point: every shorter candidate failed to measure or fitted, and an early stop is an overflow that keeps the overflowing character |
| `LineWrap.LineEndCharacterization` | src/panel.rs:99-116 | an offset satisfies the break rule if and only if it is the end that one pass returns |
| `LineWrap.Wrap` | src/panel.rs:83-96 | at least one physical line is produced; an empty logical line gives exactly one empty physical line |
| `LineWrap.WrapFromIsWrap` | src/panel.rs:83-96 | the passes from `start` on give a correct reflow of `text[start..]`: they spell it out, are non-empty, have no overflowing proper prefix, and every line but the last overflows |
| `LineWrap.WrapFromUnique` | src/panel.rs:88-94 | any correct reflow of `text[start..]` equals what the passes from `start` produce |
| `LineWrap.WrapCharacterization` | src/panel.rs:83-116 | a sequence of lines is a correct reflow of `text` if and only if it is `Wrap` of `text` |
| `LineWrap.WrapPartition` | src/panel.rs:88-96 | for non-empty text the physical lines concatenate to exactly the text, number between 1 and \|text\|, and none is empty |
| `LineWrap.NeverMeasuredNeverBreaks` | src/panel.rs:108-112 | when every measurement fails, the whole logical line is one physical line |
| `LineWrap.OverflowingCharacterStays` | src/panel.rs:105-111 | with unit-width characters and target 3, "abcde" wraps as "abcd" and "e" |
| `LineWrap.WideCharacterGetsOwnLine` | src/panel.rs:105-111 | for every measurer, width, text and start, a pass whose first character alone overflows ends right after that character: it forms a one-character physical line, so wrapping never stalls |
| `LineWrap.WideCharactersExample` | src/panel.rs:105-111 | with unit-width characters and target 0, "ab" wraps as "a" and "b" |
| `Panels.LogicalLine.GetPhysicalLine` | src/panel.rs:99-116 | the loop returns the break-point end of the pass from `start` and the slice `text[start..end]` |
| `Panels.LogicalLine.GetPhysicalLines` | src/panel.rs:83-97 | the loop returns exactly `Wrap` of the line's text, which is a correct reflow |
| `Panels.NewLogicalLine` | src/panel.rs:77-81 | a fresh logical line is empty |
| `Panels.Pop` | src/panel.rs:42 | popping an empty string leaves it empty; otherwise the result plus the removed last character is the original |
| `Panels.PopN` | src/panel.rs:41-43 | `amount` pops leave the prefix of the text that is `amount` characters shorter, or the empty string |
| `Panels.Panel.constructor` | src/panel.rs:22-30 | a fresh panel has exactly one empty line, a fresh cursor that addresses that line, a fresh document, and no line break |
| `Panels.Panel.AddText` | src/panel.rs:32-36 | the cursor's line becomes its old text followed verbatim by `s`; the line count and every other line are unchanged; the panel is line-break free afterwards if and only if it was before and `s` holds no line break |
| `Panels.Panel.RemoveText` | src/panel.rs:38-44 | as written: the cursor's line loses at most its last character whatever `amount` is, and is unchanged when empty; the other lines and the line count are unchanged |
| `Panels.Panel.RemoveTextIntended` | src/panel.rs:38-44 | as intended: the cursor's line loses up to `amount` trailing characters, never failing; the other lines and the line count are unchanged |
| `Panels.AddTextScenario` | src/panel.rs:22-36 | on a fresh panel, adding "hi" and then "!" gives the single line "hi!" |
| `Panels.RemoveTextScenario` | src/panel.rs:38-44 | from the line "ab", removing 5 leaves "a" as written and "" as intended |

## Left out

- `Panel::draw` (src/panel.rs:46-72) is not modelled. It covers the rendering through the graphics library, the `f64` line-height transforms, the panic on a drawing error, and the per-logical-line call of `get_physical_lines` that feeds the renderer.
- src/main.rs is not part of this model: the window, the OpenGL setup, the event loop, font loading, and `App::add_text`/`App::remove_text`, which only forward to the first panel.
- The real font metrics are not modelled. `glyphs.width` returns an `f64`; here it is an arbitrary integer-valued measurer passed as a parameter. A result that compares false with the width, such as NaN, behaves like a failed measurement (`None`). The font size is folded into the measurer.
- The state of the glyph cache (`glyphs: &mut C`, src/panel.rs:99, 108) is not modelled. Each measurement is assumed to depend only on the candidate string, so the measurer is a pure function.
- `size`, `position`, `FONT_SIZE` and `RED` (src/panel.rs:7-9, 18-19) are floating-point geometry that the edit logic never reads. The target width is an integer parameter instead of `size[0]`.
- The byte-slice `&self.text[start..end]` (src/panel.rs:115) uses character counts as byte offsets. It can panic or cut the wrong bytes on multi-byte UTF-8. `GetPhysicalLine` and `GetPhysicalLines` require ASCII text, where character and byte offsets agree.
- The panic of `unwrap` on a missing cursor line becomes a precondition of `AddText`, `RemoveText` and `RemoveTextIntended`.
- `Panel.document` is built by the constructor but never linked to `lines`, as in the code.
- `col_num` is carried but no edit reads it, as in the code.
- Overflow of the `usize` counter `end` is not modelled: it would need a string longer than memory. Offsets are unbounded naturals.
- Determinism of the reflow needs no lemma: `Wrap` is a function, so identical arguments give identical lines.

## Findings

| source | as written | input that shows it | evidently intended | confidence | as-written member | corrected member |
|---|---|---|---|---|---|---|
| src/panel.rs:41 | `for _ in [..amount]` loops over a one-element array holding the range `..amount`, so the body pops exactly once | the line "ab" with `remove_text(5)` leaves "a" | `for _ in 0..amount`: pop up to `amount` characters, leaving "" | high (the only caller passes 1, where the two agree); not executed | `Panels.Panel.RemoveText` (with `Panels.RemoveTextScenario`) | `Panels.Panel.RemoveTextIntended` (with `Panels.PopN`) |
