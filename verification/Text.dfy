/** UTF-8 sizes of strings, raw and as JSON string literals. */
module Text {

  /** Bytes of a character in UTF-8. */
  function Width(c: char): (n: nat)
    ensures 1 <= n <= 4
  {
    if c < '\U{80}' then 1 else if c < '\U{800}' then 2 else if c < '\U{10000}' then 3 else 4
  }

  /** Bytes of a character inside a JSON string (RFC 8259, section 7). */
  function EscapedWidth(c: char): (n: nat)
    ensures n >= Width(c)
  {
    if c == '"' || c == '\\' then 2
    else if c == '\U{8}' || c == '\t' || c == '\n' || c == '\U{c}' || c == '\r' then 2
    else if c < ' ' then 6
    else Width(c)
  }

  function ByteLen(s: string): nat {
    if s == [] then 0 else ByteLen(s[..|s| - 1]) + Width(s[|s| - 1])
  }

  function EscapedLen(s: string): nat {
    if s == [] then 0 else EscapedLen(s[..|s| - 1]) + EscapedWidth(s[|s| - 1])
  }

  lemma {:induction false} ByteLenConcat(a: string, b: string)
    ensures ByteLen(a + b) == ByteLen(a) + ByteLen(b)
  {
    if b == [] {
      assert a + b == a;
    } else {
      ByteLenConcat(a, b[..|b| - 1]);
      assert (a + b)[..|a + b| - 1] == a + b[..|b| - 1];
    }
  }

  lemma {:induction false} EscapedLenConcat(a: string, b: string)
    ensures EscapedLen(a + b) == EscapedLen(a) + EscapedLen(b)
  {
    if b == [] {
      assert a + b == a;
    } else {
      EscapedLenConcat(a, b[..|b| - 1]);
      assert (a + b)[..|a + b| - 1] == a + b[..|b| - 1];
    }
  }

  /** Escaping never shortens. */
  lemma {:induction false} EscapedAtLeastRaw(s: string)
    ensures EscapedLen(s) >= ByteLen(s) >= |s|
  {
    if s != [] { EscapedAtLeastRaw(s[..|s| - 1]); }
  }
}
