/** Strings as the server and the browser see them: sequences of UTF-16 code units. */
module Text {
  type CodeUnit = u: int | 0 <= u < 0x1_0000
  type Text = seq<CodeUnit>

  const AT: CodeUnit := 0x40
  const SPACE: CodeUnit := 0x20
}
