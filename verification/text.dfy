/** String helpers that the expression pipeline takes from Go's `strings` package. */
module Text {

  // unicode.IsSpace
  predicate IsSpace(c: char) {
    || '\t' <= c <= '\r'
    || c == ' '
    || c == '\U{85}'
    || c == '\U{A0}'
    || c == '\U{1680}'
    || '\U{2000}' <= c <= '\U{200A}'
    || c == '\U{2028}'
    || c == '\U{2029}'
    || c == '\U{202F}'
    || c == '\U{205F}'
    || c == '\U{3000}'
  }

  function TrimLeft(s: string): (r: string)
    ensures r == [] || !IsSpace(r[0])
  {
    if s != [] && IsSpace(s[0]) then TrimLeft(s[1..]) else s
  }

  function TrimRight(s: string): (r: string)
    ensures r <= s
    ensures r == [] || !IsSpace(r[|r| - 1])
  {
    if s != [] && IsSpace(s[|s| - 1]) then TrimRight(s[..|s| - 1]) else s
  }

  function TrimSpace(s: string): (r: string)
    ensures r == [] || (!IsSpace(r[0]) && !IsSpace(r[|r| - 1]))
  {
    TrimRight(TrimLeft(s))
  }

  /** A text that neither begins nor ends with white space is left alone. */
  lemma {:induction false} TrimSpaceFixed(s: string)
    requires s == [] || (!IsSpace(s[0]) && !IsSpace(s[|s| - 1]))
    ensures TrimSpace(s) == s
  {
  }

  function Digit(n: nat): (c: char)
    requires n < 10
    ensures c != ':'
  {
    '0' + n as char
  }

  function Decimal(n: nat): (s: string) {
    if n < 10 then [Digit(n)] else Decimal(n / 10) + [Digit(n % 10)]
  }
}
