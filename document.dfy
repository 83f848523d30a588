/** The document record of src/document.rs. */
module Documents {

  /** The characters that end a line. */
  predicate IsLineBreak(c: char)
  {
    c == '\n' || c == '\r'
  }

  /** `s` holds no line-break character: line breaks are structural, never content. */
  predicate LineBreakFree(s: string)
  {
    forall j :: 0 <= j < |s| ==> !IsLineBreak(s[j])
  }

  /** An opaque path and the document's logical lines. */
  datatype Document = Document(path: string, lines: seq<string>)

  /** `Document::new`: named "test.txt", holding exactly one empty line and no line break. */
  function NewDocument(): (d: Document)
    ensures d.path == "test.txt"
    ensures |d.lines| == 1 && d.lines[0] == ""
    ensures forall i :: 0 <= i < |d.lines| ==> LineBreakFree(d.lines[i])
  {
    Document("test.txt", [""])
  }
}
