/**
 * `fnmatch.fnmatch(name, pattern)` on a POSIX system (no case folding): `*` matches any
 * run of characters, `?` any one character, `[...]` one character of a class (`!` first
 * negates it, `]` right after the opening bracket or the `!` is a member, `a-z` is a
 * range), a `[` with no closing `]` is an ordinary character, and the whole name must be
 * matched.
 */
module Glob {
  import opened Wrappers
  import opened Text

  /**
   * Where the class opened by `p[0] == '['` closes: the index of its `]`, or `None` when
   * the bracket is never closed.
   */
  function ClassEnd(p: string): (r: Option<nat>)
    requires |p| > 0 && p[0] == '['
    ensures r.Some? ==> 2 <= r.value < |p| && p[r.value] == ']'
  {
    var j := if 1 < |p| && p[1] == '!' then 2 else 1;
    var k := if j < |p| && p[j] == ']' then j + 1 else j;
    FirstClose(p, k)
  }

  function FirstClose(p: string, k: nat): (r: Option<nat>)
    requires k <= |p|
    ensures r.Some? ==> k <= r.value < |p| && p[r.value] == ']'
    decreases |p| - k
  {
    if k == |p| then None else if p[k] == ']' then Some(k) else FirstClose(p, k + 1)
  }

  /** Whether `c` is among the class members `items`, read left to right as `x-y` ranges or single characters. */
  function InItems(items: string, c: char): bool
    decreases |items|
  {
    if |items| == 0 then false
    else if |items| >= 3 && items[1] == '-' then (items[0] <= c <= items[2]) || InItems(items[3..], c)
    else items[0] == c || InItems(items[1..], c)
  }

  /** The class body between the brackets, with its optional leading `!`. */
  function InClass(body: string, c: char): bool {
    if |body| > 0 && body[0] == '!' then !InItems(body[1..], c) else InItems(body, c)
  }

  /** `fnmatch.fnmatch(s, p)`. */
  function Match(p: string, s: string): bool
    decreases |p| + |s|
  {
    if |p| == 0 then |s| == 0
    else if p[0] == '*' then Match(p[1..], s) || (|s| > 0 && Match(p, s[1..]))
    else if |s| == 0 then false
    else if p[0] == '?' then Match(p[1..], s[1..])
    else if p[0] == '[' then
      match ClassEnd(p)
      case Some(j) => InClass(p[1..j], s[0]) && Match(p[j + 1..], s[1..])
      case None => s[0] == '[' && Match(p[1..], s[1..])
    else s[0] == p[0] && Match(p[1..], s[1..])
  }

  /** A pattern with no `*`, `?` or `[`. */
  predicate Plain(p: string) {
    forall i :: 0 <= i < |p| ==> p[i] != '*' && p[i] != '?' && p[i] != '['
  }

  /** A plain pattern matches exactly itself. */
  lemma {:induction false} PlainMatchesItself(p: string, s: string)
    requires Plain(p)
    ensures Match(p, s) <==> s == p
    decreases |p|
  {
    if |p| > 0 && |s| > 0 {
      assert Plain(p[1..]) by { forall i | 0 <= i < |p[1..]| ensures p[1..][i] == p[i + 1] { } }
      PlainMatchesItself(p[1..], s[1..]);
      if s[0] == p[0] && s[1..] == p[1..] { assert s == [s[0]] + s[1..] && p == [p[0]] + p[1..]; }
    }
  }

  /** `*` matches every name. */
  lemma {:induction false} StarMatchesAll(s: string)
    ensures Match("*", s)
    decreases |s|
  {
    assert "*"[1..] == [];
    if |s| > 0 { StarMatchesAll(s[1..]); }
  }

  /** `?` matches exactly the names of one character. */
  lemma QuestionMatchesOneChar(s: string)
    ensures Match("?", s) <==> |s| == 1
  {
    assert "?"[1..] == [];
  }

  /** `*` followed by plain text matches exactly the names ending in that text (as `*.pyc` does). */
  lemma {:induction false} StarSuffix(suffix: string, s: string)
    requires Plain(suffix)
    ensures Match("*" + suffix, s) <==> EndsWith(s, suffix)
    decreases |s|
  {
    var p := "*" + suffix;
    assert p[0] == '*' && p[1..] == suffix;
    PlainMatchesItself(suffix, s);
    if |s| > 0 {
      StarSuffix(suffix, s[1..]);
      if |suffix| <= |s[1..]| {
        assert s[|s| - |suffix|..] == s[1..][|s[1..]| - |suffix|..];
      }
    } else {
      assert EndsWith(s, suffix) ==> suffix == [];
    }
  }

  /** A class matches one character, and `!` inverts which. */
  lemma ClassExample()
    ensures Match("[abc]", "b") && !Match("[abc]", "d")
    ensures Match("[!abc]", "d") && !Match("[!abc]", "b")
    ensures Match("[a-c]x", "bx") && Match("[x", "[x")
  {
    assert ClassEnd("[abc]") == Some(4);
    assert ClassEnd("[!abc]") == Some(5);
    assert "[!abc]"[1..5] == "!abc" && "!abc"[1..] == "abc";
    assert !InItems("abc", 'd') && InItems("abc", 'b');
    assert ClassEnd("[a-c]x") == Some(4);
    assert ClassEnd("[x") == None;
  }
}
