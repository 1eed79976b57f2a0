/**
 * SQLite's `LIKE` as the snippet queries use it: `%` matches any run of characters, `_`
 * any one character, and other characters match themselves ignoring the case of ASCII
 * letters; the whole value must be matched.
 */
module SqlLike {

  /** ASCII upper-case letters folded to lower case; everything else as is. */
  function Fold(c: char): char {
    if 'A' <= c <= 'Z' then (c as int + 32) as char else c
  }

  function Like(p: string, s: string): bool
    decreases |p| + |s|
  {
    if |p| == 0 then |s| == 0
    else if p[0] == '%' then Like(p[1..], s) || (|s| > 0 && Like(p, s[1..]))
    else if |s| == 0 then false
    else if p[0] == '_' then Like(p[1..], s[1..])
    else Fold(p[0]) == Fold(s[0]) && Like(p[1..], s[1..])
  }

  /** Text without `%` or `_`. */
  predicate Plain(q: string) {
    forall i :: 0 <= i < |q| ==> q[i] != '%' && q[i] != '_'
  }

  /** `a` and `b` are equal ignoring the case of ASCII letters. */
  predicate SameFolded(a: string, b: string) {
    |a| == |b| && forall i :: 0 <= i < |a| ==> Fold(a[i]) == Fold(b[i])
  }

  /** `q` occurs in `s` at index `i`, ignoring ASCII case. */
  predicate FoldedAt(s: string, q: string, i: int) {
    0 <= i && i + |q| <= |s| && SameFolded(s[i..i + |q|], q)
  }

  /** `q` occurs in `s`, ignoring ASCII case. */
  ghost predicate ContainsFolded(s: string, q: string) {
    exists i :: FoldedAt(s, q, i)
  }

  lemma {:induction false} PercentMatchesAll(s: string)
    ensures Like("%", s)
    decreases |s|
  {
    assert "%"[1..] == [];
    if |s| > 0 { PercentMatchesAll(s[1..]); }
  }

  /** Plain text followed by `%` matches exactly the values that begin with that text. */
  lemma {:induction false} PrefixThenAny(q: string, s: string)
    requires Plain(q)
    ensures Like(q + "%", s) <==> |q| <= |s| && SameFolded(s[..|q|], q)
    decreases |q|
  {
    if |q| == 0 {
      assert q + "%" == "%";
      PercentMatchesAll(s);
    } else {
      var p := q + "%";
      assert p[0] == q[0] && p[1..] == q[1..] + "%";
      assert Plain(q[1..]) by { forall i | 0 <= i < |q[1..]| ensures q[1..][i] == q[i + 1] { } }
      if |s| > 0 {
        PrefixThenAny(q[1..], s[1..]);
        if |q| <= |s| {
          var a, b := s[..|q|], q;
          assert SameFolded(a, b) <==> Fold(a[0]) == Fold(b[0]) && SameFolded(s[1..][..|q| - 1], q[1..]) by {
            assert forall i :: 1 <= i < |a| ==> a[i] == s[1..][..|q| - 1][i - 1] && b[i] == q[1..][i - 1];
            if Fold(a[0]) == Fold(b[0]) && SameFolded(s[1..][..|q| - 1], q[1..]) {
              forall i | 0 <= i < |a| ensures Fold(a[i]) == Fold(b[i]) {
                if i > 0 { assert a[i] == s[1..][..|q| - 1][i - 1] && b[i] == q[1..][i - 1]; }
              }
            }
            if SameFolded(a, b) {
              forall i | 0 <= i < |q| - 1 ensures Fold(s[1..][..|q| - 1][i]) == Fold(q[1..][i]) {
                assert s[1..][..|q| - 1][i] == a[i + 1] && q[1..][i] == b[i + 1];
              }
            }
          }
        }
      }
    }
  }

  /** `%` followed by a pattern matches when the pattern matches some suffix. */
  lemma {:induction false} AnyThen(r: string, s: string)
    ensures Like("%" + r, s) <==> exists i :: 0 <= i <= |s| && Like(r, s[i..])
    decreases |s|
  {
    var p := "%" + r;
    assert p[0] == '%' && p[1..] == r;
    assert s[0..] == s;
    if |s| > 0 {
      AnyThen(r, s[1..]);
      if exists i :: 0 <= i <= |s| && Like(r, s[i..]) {
        var i :| 0 <= i <= |s| && Like(r, s[i..]);
        if i > 0 { assert s[1..][i - 1..] == s[i..]; }
      }
      if exists i :: 0 <= i <= |s[1..]| && Like(r, s[1..][i..]) {
        var i :| 0 <= i <= |s[1..]| && Like(r, s[1..][i..]);
        assert s[1..][i..] == s[i + 1..];
      }
    }
  }

  /**
   * `LIKE '%q%'` with `q` free of wildcards is a case-insensitive substring test, the
   * search the snippet queries mean.
   */
  lemma SurroundedIsSubstring(q: string, s: string)
    requires Plain(q)
    ensures Like("%" + q + "%", s) <==> ContainsFolded(s, q)
  {
    assert "%" + q + "%" == "%" + (q + "%");
    AnyThen(q + "%", s);
    if Like("%" + (q + "%"), s) {
      var i :| 0 <= i <= |s| && Like(q + "%", s[i..]);
      PrefixThenAny(q, s[i..]);
      assert s[i..][..|q|] == s[i..i + |q|];
      assert FoldedAt(s, q, i);
    }
    if ContainsFolded(s, q) {
      var i :| FoldedAt(s, q, i);
      PrefixThenAny(q, s[i..]);
      assert s[i..][..|q|] == s[i..i + |q|];
    }
  }
}
