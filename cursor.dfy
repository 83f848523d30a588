/** The editing cursor of src/cursor.rs. */
module Cursors {

  /** Rust's `u32`: the coordinates of a cursor position lie in [0, 2^32). */
  type U32 = x: int | 0 <= x < 0x1_0000_0000

  /** A logical line index and a column; the column is carried but no edit reads it. */
  datatype CursorPosition = CursorPosition(lineNum: U32, colNum: U32)

  datatype Cursor = Cursor(position: CursorPosition)

  /** `CursorPosition::new`: the origin, line 0 and column 0. */
  function NewCursorPosition(): (p: CursorPosition)
    ensures p.lineNum == 0
    ensures p.colNum == 0
  {
    CursorPosition(0, 0)
  }

  /** `Cursor::new`: a cursor holding a fresh position. */
  function NewCursor(): (c: Cursor)
    ensures c.position == NewCursorPosition()
    ensures c.position.lineNum == 0 && c.position.colNum == 0
  {
    Cursor(NewCursorPosition())
  }
}
