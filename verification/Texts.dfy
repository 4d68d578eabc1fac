/** The order of texts, and trimming. */
module Texts {
  import opened Host

  // ── The order ─────────────────────────────────────────────────────────────

  /** `a` and `b` agree on their first `n` characters, and there `a` ends or goes on with a smaller one. */
  predicate DivergeAt(a: string, b: string, n: nat) {
    n <= |a| && n < |b| && a[..n] == b[..n] && (n == |a| || a[n] < b[n])
  }

  /** The order of a dictionary. */
  ghost predicate Before(a: string, b: string) {
    exists n: nat :: DivergeAt(a, b, n)
  }

  lemma {:induction false} StrLessExactly(a: string, b: string)
    ensures StrLess(a, b) <==> Before(a, b)
  {
    if b == "" {
    } else if a == "" || a[0] < b[0] {
      assert DivergeAt(a, b, 0);
    } else if a[0] == b[0] {
      StrLessExactly(a[1..], b[1..]);
      if n: nat :| DivergeAt(a, b, n) {
        assert n > 0;
        assert a[1..][..n - 1] == a[..n][1..] && b[1..][..n - 1] == b[..n][1..];
        assert DivergeAt(a[1..], b[1..], n - 1);
      }
      if n: nat :| DivergeAt(a[1..], b[1..], n) {
        assert a[..n + 1] == [a[0]] + a[1..][..n] && b[..n + 1] == [b[0]] + b[1..][..n];
        assert DivergeAt(a, b, n + 1);
      }
    } else {
      forall n: nat ensures !DivergeAt(a, b, n) {
        assert 0 < n <= |a| && n <= |b| ==> a[..n][0] == a[0] && b[..n][0] == b[0];
      }
    }
  }

  /** Of two texts one comes first, or they are the same. */
  lemma {:induction false} OneFirst(a: string, b: string)
    ensures StrLess(a, b) || a == b || StrLess(b, a)
    ensures !(StrLess(a, b) && StrLess(b, a)) && !StrLess(a, a)
  {
    if a != "" && b != "" && a[0] == b[0] {
      OneFirst(a[1..], b[1..]);
      assert a == [a[0]] + a[1..] && b == [b[0]] + b[1..];
    }
    if a != "" {
      OneFirst(a[1..], a[1..]);
    }
  }

  lemma {:induction false} FirstOfThree(a: string, b: string, c: string)
    requires StrLess(a, b) && StrLess(b, c)
    ensures StrLess(a, c)
  {
    if a != "" && a[0] == b[0] && b[0] == c[0] {
      FirstOfThree(a[1..], b[1..], c[1..]);
    }
  }

  // ── Trimming ──────────────────────────────────────────────────────────────

  ghost predicate Blank(space: Space, s: string) {
    forall i :: 0 <= i < |s| ==> space(s[i])
  }

  /** `t` is what is left of `s` without the blanks at its ends. */
  ghost predicate Trimmed(space: Space, s: string, t: string) {
    && (exists pre, post :: Blank(space, pre) && Blank(space, post) && s == pre + t + post)
    && (t != "" ==> !space(t[0]) && !space(t[|t| - 1]))
  }

  lemma {:induction false} StartTrimmed(space: Space, s: string) returns (pre: string)
    ensures Blank(space, pre) && s == pre + TrimStart(space, s)
    ensures TrimStart(space, s) != "" ==> !space(TrimStart(space, s)[0])
  {
    if s != "" && space(s[0]) {
      pre := StartTrimmed(space, s[1..]);
      pre := [s[0]] + pre;
    } else {
      pre := "";
    }
  }

  lemma {:induction false} EndTrimmed(space: Space, s: string) returns (post: string)
    ensures Blank(space, post) && s == TrimEnd(space, s) + post
    ensures TrimEnd(space, s) != "" ==> !space(TrimEnd(space, s)[|TrimEnd(space, s)| - 1])
  {
    if s != "" && space(s[|s| - 1]) {
      post := EndTrimmed(space, s[..|s| - 1]);
      post := post + [s[|s| - 1]];
    } else {
      post := "";
    }
  }

  lemma {:induction false} TrimExactly(space: Space, s: string)
    ensures Trimmed(space, s, Trim(space, s))
  {
    var u := TrimStart(space, s);
    var pre := StartTrimmed(space, s);
    var post := EndTrimmed(space, u);
    var t := Trim(space, s);
    assert s == pre + t + post;
    if t != "" {
      assert t[0] == u[0];
    }
  }
}
