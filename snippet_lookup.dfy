/**
 * `expand_snippets` (config.py) as it runs against the registry: the `re.sub` callback
 * reads each referenced snippet through `get_snippet`, so every reference to a stored
 * snippet also counts one use of it.
 */
module SnippetLookup {
  import opened Wrappers
  import opened SnippetExpansion
  import Registry

  type Rows = map<string, Registry.Snippet>

  /** The name-to-content view of the `snippets` table that expansion reads. */
  function Contents(rows: Rows): (m: map<string, string>)
    ensures m.Keys == rows.Keys
    ensures forall n :: n in rows ==> m[n] == rows[n].content
  {
    map n | n in rows :: rows[n].content
  }

  /** The names `expand_snippets(s)` looks up, in order. */
  function Lookups(s: string): seq<string>
    decreases |s|
  {
    if |s| == 0 then []
    else
      match TokenAt(s)
      case Some(n) => [n] + Lookups(s[|n| + 7..])
      case None => Lookups(s[1..])
  }

  /** `increment_snippet_usage(name)` on the table. */
  function Bump(rows: Rows, name: string): Rows {
    if name in rows then rows[name := rows[name].(usageCount := rows[name].usageCount + 1)] else rows
  }

  /** The table after one `increment_snippet_usage` per name, in order. */
  function Counted(rows: Rows, names: seq<string>): Rows
    decreases |names|
  {
    if |names| == 0 then rows else Counted(Bump(rows, names[0]), names[1..])
  }

  lemma {:induction false} CountedAppend(rows: Rows, a: seq<string>, b: seq<string>)
    ensures Counted(rows, a + b) == Counted(Counted(rows, a), b)
    decreases |a|
  {
    if |a| > 0 {
      assert (a + b)[0] == a[0] && (a + b)[1..] == a[1..] + b;
      CountedAppend(Bump(rows, a[0]), a[1..], b);
    } else {
      assert a + b == b;
    }
  }

  /**
   * Counting uses keeps the table's rows, names and contents, and adds to each stored
   * snippet's `usage_count` the number of times it was looked up.
   */
  lemma {:induction false} CountedUsage(rows: Rows, names: seq<string>)
    ensures Counted(rows, names).Keys == rows.Keys
    ensures forall n :: n in rows ==>
      Counted(rows, names)[n] == rows[n].(usageCount := rows[n].usageCount + multiset(names)[n])
    decreases |names|
  {
    if |names| > 0 {
      CountedUsage(Bump(rows, names[0]), names[1..]);
      assert names == [names[0]] + names[1..];
      assert multiset(names) == multiset{names[0]} + multiset(names[1..]);
    }
  }

  lemma ContentsUnchanged(rows: Rows, names: seq<string>)
    ensures Contents(Counted(rows, names)) == Contents(rows)
  {
    CountedUsage(rows, names);
  }

  /** One more lookup bumps one more count and leaves the contents as they were. */
  lemma CountOneMore(rows: Rows, looked: seq<string>, name: string)
    ensures Counted(rows, looked + [name]) == Bump(Counted(rows, looked), name)
    ensures Contents(Bump(Counted(rows, looked), name)) == Contents(Counted(rows, looked))
  {
    CountedAppend(rows, looked, [name]);
    assert [name][1..] == [];
    ContentsUnchanged(Counted(rows, looked), [name]);
  }

  /** A reference at the front of `s`: its replacement, then the rest of the text. */
  lemma StepReference(s: string, name: string, store: map<string, string>)
    requires TokenAt(s) == Some(name)
    ensures |name| + 7 <= |s|
    ensures Expand(s, store) == Replacement(name, store) + Expand(s[|name| + 7..], store)
    ensures Lookups(s) == [name] + Lookups(s[|name| + 7..])
  {
  }

  /** No reference at the front of `s`: its first character is copied. */
  lemma StepCharacter(s: string, store: map<string, string>)
    requires |s| > 0 && TokenAt(s).None?
    ensures Expand(s, store) == [s[0]] + Expand(s[1..], store)
    ensures Lookups(s) == Lookups(s[1..])
  {
  }

  /** The `replace_snippet` callback: the stored content, or the reference as written. */
  method ReplaceSnippet(reg: Registry.Registry, name: string) returns (text: string)
    requires reg.Valid()
    modifies reg
    ensures reg.Valid()
    ensures text == Replacement(name, Contents(old(reg.snippets)))
    ensures reg.snippets == Bump(old(reg.snippets), name)
    ensures reg.projects == old(reg.projects) && reg.config == old(reg.config)
  {
    var row := reg.GetSnippet(name);
    text := if row.Some? then row.value.content else Reference(name);
  }

  lemma Assoc<T>(a: seq<T>, b: seq<T>, c: seq<T>)
    ensures (a + b) + c == a + (b + c)
  {
  }

  /** After `i` characters of `command`, `out` is their expansion. */
  ghost predicate ExpandedTo(command: string, i: nat, out: string, store: map<string, string>) {
    i <= |command| && out + Expand(command[i..], store) == Expand(command, store)
  }

  /** After `i` characters of `command`, `looked` holds the names looked up for them. */
  ghost predicate LookedTo(command: string, i: nat, looked: seq<string>) {
    i <= |command| && looked + Lookups(command[i..]) == Lookups(command)
  }

  lemma ExpandReference(command: string, i: nat, name: string, out: string, store: map<string, string>,
                        next: nat, out': string)
    requires ExpandedTo(command, i, out, store) && TokenAt(command[i..]) == Some(name)
    requires next == i + |name| + 7 && out' == out + Replacement(name, store)
    ensures ExpandedTo(command, next, out', store)
  {
    var rest, after := command[i..], command[next..];
    StepReference(rest, name, store);
    assert rest[|name| + 7..] == after;
    Assoc(out, Replacement(name, store), Expand(after, store));
  }

  lemma LookReference(command: string, i: nat, name: string, looked: seq<string>, next: nat, looked': seq<string>)
    requires LookedTo(command, i, looked) && TokenAt(command[i..]) == Some(name)
    requires next == i + |name| + 7 && looked' == looked + [name]
    ensures LookedTo(command, next, looked')
  {
    var rest, after := command[i..], command[next..];
    StepReference(rest, name, map[]);
    assert rest[|name| + 7..] == after;
    Assoc(looked, [name], Lookups(after));
  }

  lemma ExpandCharacter(command: string, i: nat, out: string, store: map<string, string>, next: nat, out': string)
    requires ExpandedTo(command, i, out, store) && i < |command| && TokenAt(command[i..]).None?
    requires next == i + 1 && out' == out + [command[i]]
    ensures ExpandedTo(command, next, out', store)
  {
    var rest, after := command[i..], command[next..];
    StepCharacter(rest, store);
    assert rest[1..] == after;
    Assoc(out, [command[i]], Expand(after, store));
  }

  lemma LookCharacter(command: string, i: nat, looked: seq<string>, next: nat)
    requires LookedTo(command, i, looked) && i < |command| && TokenAt(command[i..]).None?
    requires next == i + 1
    ensures LookedTo(command, next, looked)
  {
    var rest := command[i..];
    StepCharacter(rest, map[]);
    assert rest[1..] == command[next..];
  }

  /**
   * One step of the `re.sub` scan from position `i`: a reference there goes through the
   * callback, any other character is copied.
   */
  method ScanStep(reg: Registry.Registry, command: string, i: nat, out: string,
                  ghost looked: seq<string>, ghost store: map<string, string>, ghost rows: Rows)
    returns (next: nat, out': string, ghost looked': seq<string>)
    requires i < |command| && ExpandedTo(command, i, out, store) && LookedTo(command, i, looked)
    requires reg.Valid() && reg.snippets == Counted(rows, looked) && Contents(reg.snippets) == store
    modifies reg
    ensures i < next && ExpandedTo(command, next, out', store) && LookedTo(command, next, looked')
    ensures reg.Valid() && reg.snippets == Counted(rows, looked') && Contents(reg.snippets) == store
    ensures reg.projects == old(reg.projects) && reg.config == old(reg.config)
  {
    match TokenAt(command[i..])
    case Some(name) =>
      CountOneMore(rows, looked, name);
      StepReference(command[i..], name, store);
      var text := ReplaceSnippet(reg, name);
      next, out', looked' := i + |name| + 7, out + text, looked + [name];
      ExpandReference(command, i, name, out, store, next, out');
      LookReference(command, i, name, looked, next, looked');
    case None =>
      next, out', looked' := i + 1, out + [command[i]], looked;
      ExpandCharacter(command, i, out, store, next, out');
      LookCharacter(command, i, looked, next);
  }

  /** `expand_snippets(command)`, the callback reading through the registry. */
  method ExpandSnippets(reg: Registry.Registry, command: string) returns (out: string)
    requires reg.Valid()
    modifies reg
    ensures reg.Valid()
    ensures out == Expand(command, Contents(old(reg.snippets)))
    ensures reg.snippets == Counted(old(reg.snippets), Lookups(command))
    ensures reg.projects == old(reg.projects) && reg.config == old(reg.config)
  {
    ghost var store := Contents(reg.snippets);
    ghost var looked: seq<string> := [];
    out := [];
    var i: nat := 0;
    assert command[i..] == command;
    while i < |command|
      invariant ExpandedTo(command, i, out, store) && LookedTo(command, i, looked)
      invariant reg.Valid()
      invariant reg.snippets == Counted(old(reg.snippets), looked)
      invariant Contents(reg.snippets) == store
      invariant reg.projects == old(reg.projects) && reg.config == old(reg.config)
      decreases |command| - i
    {
      i, out, looked := ScanStep(reg, command, i, out, looked, store, old(reg.snippets));
    }
    assert command[i..] == [];
    assert looked + Lookups(command[i..]) == looked;
  }
}
