/**
  The facts of the Rust standard library that the programs below rely on but
  do not define: Unicode character classes and the `f64` type. They are passed
  around as one value, so every theorem holds for whatever they turn out to be.
 */
module Host {
  import opened Wrappers

  /** An opaque `f64`. Only the operations of `Host` look inside it. */
  type F64 = nat

  datatype Host = Host(
    alnum: char -> bool,            // char::is_alphanumeric
    upper: char -> string,          // char::to_uppercase
    parseF64: string -> Option<F64>,
    showF64: F64 -> string,
    feq: (F64, F64) -> bool,
    flt: (F64, F64) -> bool,
    fle: (F64, F64) -> bool)

  /** What is assumed of the character classes: the ASCII range behaves as ASCII. */
  ghost predicate AsciiOk(h: Host) {
    && (forall c :: 'A' <= c <= 'Z' ==> h.alnum(c) && h.upper(c) == [c])
    && (forall c :: c in " \t\n\r\U{0C}()'=!<>-" ==> !h.alnum(c))
  }

  predicate IsDigit(c: char) {
    '0' <= c <= '9'
  }

  predicate IsAsciiSpace(c: char) {
    c == ' ' || c == '\t' || c == '\n' || c == '\r' || c == '\U{0C}'
  }

  /** `str` ordering. UTF-8 byte order is code point order. */
  predicate StrLess(a: string, b: string) {
    if b == "" then false
    else if a == "" then true
    else if a[0] != b[0] then a[0] < b[0]
    else StrLess(a[1..], b[1..])
  }

  /** `char::is_whitespace`. */
  type Space = char -> bool

  function TrimStart(space: Space, s: string): (t: string)
    ensures |t| <= |s|
  {
    if s != [] && space(s[0]) then TrimStart(space, s[1..]) else s
  }

  function TrimEnd(space: Space, s: string): (t: string)
    ensures |t| <= |s|
  {
    if s != [] && space(s[|s| - 1]) then TrimEnd(space, s[..|s| - 1]) else s
  }

  function Trim(space: Space, s: string): (t: string)
    ensures |t| <= |s|
  {
    TrimEnd(space, TrimStart(space, s))
  }
}
