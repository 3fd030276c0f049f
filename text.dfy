/** The text test every guard of the services is built on. */
module Text {
  import opened Common

  /** Java's `Character.isWhitespace`: the ASCII controls TAB..CR and FS..US,
      the space, and the Unicode space, line and paragraph separators except
      the three no-break spaces (U+00A0, U+2007, U+202F). */
  predicate IsWhitespace(c: char) {
    var n := c as int;
    || 0x09 <= n <= 0x0D
    || 0x1C <= n <= 0x20
    || n == 0x1680
    || 0x2000 <= n <= 0x2006
    || 0x2008 <= n <= 0x200A
    || n == 0x2028 || n == 0x2029
    || n == 0x205F || n == 0x3000
  }

  /** Spring's `StringUtils.hasText`: the string is not null and holds at least
      one character that is not whitespace. */
  predicate HasText(s: Option<string>) {
    s.Some? && exists i :: 0 <= i < |s.value| && !IsWhitespace(s.value[i])
  }
}
