/**
 * `expand_snippets` (config.py): one left-to-right pass of `re.sub` with the pattern
 * `\{snip:([^}]+)\}`. A reference is `{snip:` followed by one or more characters other
 * than `}` and then `}`; a found snippet's content replaces it, an unknown reference stays
 * as written, and replaced text is never scanned again.
 *
 * The snippet store is a map from name to content here; the usage counter that the
 * lookup bumps is modelled by `Registry.Registry.GetSnippet` and `SnippetLookup.ExpandSnippets`.
 */
module SnippetExpansion {
  import opened Wrappers
  import opened Text

  const Prefix: string := "{snip:"

  /** The text of a reference to `name`. */
  function Reference(name: string): (t: string)
    ensures |t| == |name| + 7
  {
    Prefix + name + "}"
  }

  /** The first `}` of `s` at or after `k`. */
  function CloseFrom(s: string, k: nat): (r: Option<nat>)
    requires k <= |s|
    ensures r.Some? ==> k <= r.value < |s| && s[r.value] == '}' && '}' !in s[k..r.value]
    ensures r.None? ==> '}' !in s[k..]
    decreases |s| - k
  {
    if k == |s| then None
    else if s[k] == '}' then Some(k)
    else
      var r := CloseFrom(s, k + 1);
      assert r.Some? ==> s[k..r.value] == [s[k]] + s[k + 1..r.value];
      assert s[k..] == [s[k]] + s[k + 1..];
      r
  }

  /** The name of the reference the pattern matches at the front of `s`, if it matches there. */
  function TokenAt(s: string): (r: Option<string>)
    ensures r.Some? ==> |r.value| > 0 && '}' !in r.value && StartsWith(s, Reference(r.value))
  {
    if StartsWith(s, Prefix) then
      match CloseFrom(s, 6)
      case Some(j) =>
        if j > 6 then
          assert s[..j + 1] == Prefix + s[6..j] + "}";
          Some(s[6..j])
        else None
      case None => None
    else None
  }

  /** The pattern matches at the front of `s` exactly when `s` starts with a reference. */
  lemma TokenAtComplete(s: string, name: string)
    requires |name| > 0 && '}' !in name && StartsWith(s, Reference(name))
    ensures TokenAt(s) == Some(name)
  {
    var t := Reference(name);
    assert s[..|t|] == t;
    assert t[..6] == Prefix && t[6..6 + |name|] == name && t[6 + |name|] == '}';
    assert s[..6] == Prefix;
    assert s[6..6 + |name|] == name;
    assert s[6 + |name|] == '}';
  }

  /** What a matched reference turns into: the content when found, else the reference itself. */
  function Replacement(name: string, snippets: map<string, string>): string {
    if name in snippets then snippets[name] else Reference(name)
  }

  /** `expand_snippets(command)` against the store `snippets`. */
  function Expand(s: string, snippets: map<string, string>): string
    decreases |s|
  {
    if |s| == 0 then []
    else
      match TokenAt(s)
      case Some(n) => Replacement(n, snippets) + Expand(s[|n| + 7..], snippets)
      case None => [s[0]] + Expand(s[1..], snippets)
  }

  /** No reference in `s` names a stored snippet (this includes `s` holding no reference). */
  ghost predicate NoKnownReference(s: string, snippets: map<string, string>) {
    forall i :: 0 <= i <= |s| && TokenAt(s[i..]).Some? ==> TokenAt(s[i..]).value !in snippets
  }

  /** A suffix of a text without known references has none either. */
  lemma NoKnownReferenceSuffix(s: string, snippets: map<string, string>, k: nat)
    requires NoKnownReference(s, snippets) && k <= |s|
    ensures NoKnownReference(s[k..], snippets)
  {
    forall i | 0 <= i <= |s[k..]| && TokenAt(s[k..][i..]).Some?
      ensures TokenAt(s[k..][i..]).value !in snippets
    {
      assert s[k..][i..] == s[k + i..];
    }
  }

  /** Unknown references are left untouched, so without a known one the command is unchanged. */
  lemma {:induction false} ExpandUnchanged(s: string, snippets: map<string, string>)
    requires NoKnownReference(s, snippets)
    ensures Expand(s, snippets) == s
    decreases |s|
  {
    if |s| > 0 {
      assert s[0..] == s;
      match TokenAt(s)
      case Some(n) =>
        var rest := s[|n| + 7..];
        NoKnownReferenceSuffix(s, snippets, |n| + 7);
        ExpandUnchanged(rest, snippets);
        assert s == s[..|n| + 7] + rest;
      case None =>
        NoKnownReferenceSuffix(s, snippets, 1);
        ExpandUnchanged(s[1..], snippets);
        assert s == [s[0]] + s[1..];
    }
  }

  /** The pattern cannot match where the text does not begin with `{`. */
  lemma NoTokenWithoutBrace(s: string)
    requires |s| > 0 && s[0] != '{'
    ensures TokenAt(s).None?
  {
    assert Prefix[0] == '{';
  }

  /** Text without `{` is copied as it is. */
  lemma {:induction false} ExpandPlainPrefix(a: string, b: string, snippets: map<string, string>)
    requires '{' !in a
    ensures Expand(a + b, snippets) == a + Expand(b, snippets)
    decreases |a|
  {
    if |a| > 0 {
      var s := a + b;
      assert s[0] == a[0] && a[0] in a;
      NoTokenWithoutBrace(s);
      assert s[1..] == a[1..] + b;
      assert Expand(s, snippets) == [s[0]] + Expand(s[1..], snippets);
      assert a == [a[0]] + a[1..];
      assert '{' !in a[1..] by {
        forall c | c in a[1..] ensures c != '{' { assert c in a; }
      }
      ExpandPlainPrefix(a[1..], b, snippets);
      assert [s[0]] + (a[1..] + Expand(b, snippets)) == ([a[0]] + a[1..]) + Expand(b, snippets);
    } else {
      assert a + b == b;
    }
  }

  /** A reference is replaced as a whole, and scanning resumes right after it. */
  lemma ExpandReference(name: string, rest: string, snippets: map<string, string>)
    requires |name| > 0 && '}' !in name
    ensures Expand(Reference(name) + rest, snippets) == Replacement(name, snippets) + Expand(rest, snippets)
  {
    var s := Reference(name) + rest;
    assert s[..|Reference(name)|] == Reference(name);
    TokenAtComplete(s, name);
    assert s[|name| + 7..] == rest;
  }

  /** A command made of plain text and one final reference expands to the text and the replacement. */
  lemma ExpandTrailingReference(text: string, name: string, snippets: map<string, string>)
    requires '{' !in text && |name| > 0 && '}' !in name
    ensures Expand(text + Reference(name), snippets) == text + Replacement(name, snippets)
  {
    assert Reference(name) + [] == Reference(name);
    ExpandReference(name, [], snippets);
    ExpandPlainPrefix(text, Reference(name), snippets);
  }

  /** `echo {snip:greet}` with `greet` = `hello world` expands to `echo hello world`. */
  lemma ExpandGreeting(m: map<string, string>)
    requires m == map["greet" := "hello world"]
    ensures Expand("echo " + Reference("greet"), m) == "echo hello world"
  {
    ExpandTrailingReference("echo ", "greet", m);
  }

  /** Content that itself holds a reference is inserted as it is, not expanded again. */
  lemma ExpandOnePass()
    ensures Expand("{snip:a}", map["a" := "{snip:b}", "b" := "x"]) == "{snip:b}"
  {
    assert "{snip:a}" == Reference("a") + "";
    ExpandReference("a", "", map["a" := "{snip:b}", "b" := "x"]);
  }

  /** `{snip:}` has an empty name, which the pattern does not accept: it stays. */
  lemma ExpandEmptyName(snippets: map<string, string>)
    ensures Expand("{snip:}", snippets) == "{snip:}"
  {
    var s := "{snip:}";
    assert CloseFrom(s, 6) == Some(6);
    assert TokenAt(s).None?;
    ExpandPlainPrefix(s[1..], [], snippets);
    assert s[1..] + [] == s[1..];
  }
}
