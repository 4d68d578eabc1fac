/** SQL quoting: identifiers in double quotes, literals in single quotes, quotes doubled. */
module Quote {

  function DoubledBy(q: char, s: string): string {
    if s == "" then ""
    else if s[0] == q then [q, q] + DoubledBy(q, s[1..])
    else [s[0]] + DoubledBy(q, s[1..])
  }

  function Doubled(s: string): string {
    DoubledBy('\'', s)
  }

  function Literal(s: string): string {
    "'" + Doubled(s) + "'"
  }

  function Ident(s: string): string {
    "\"" + DoubledBy('"', s) + "\""
  }

  lemma {:induction false} DoubledByAppend(q: char, s: string, t: string)
    ensures DoubledBy(q, s + t) == DoubledBy(q, s) + DoubledBy(q, t)
  {
    if s == "" {
      assert s + t == t;
    } else {
      assert (s + t)[1..] == s[1..] + t;
      DoubledByAppend(q, s[1..], t);
    }
  }

  method QuoteLiteral(s: string) returns (out: string)
    ensures out == Literal(s)
  {
    out := "'";
    for i := 0 to |s|
      invariant out == "'" + Doubled(s[..i])
    {
      var c := s[i];
      if c == '\'' {
        out := out + "''";
      } else {
        out := out + [c];
      }
      assert s[..i + 1] == s[..i] + [c];
      DoubledByAppend('\'', s[..i], [c]);
    }
    out := out + "'";
    assert s[..|s|] == s;
  }
}
