/**
 * Python's `dict` with string keys and its insertion order: assigning to an existing key
 * keeps the key where it is, a new key goes to the end. The core iterates dictionaries in
 * this order (task tables, template variables), so the order is part of the model.
 */
module OrderedDict {
  import opened Wrappers

  datatype Dict<V> = Dict(keys: seq<string>, entries: map<string, V>) {

    /** The key list is duplicate-free and names exactly the stored keys. */
    ghost predicate Valid() {
      && (forall i, j :: 0 <= i < j < |keys| ==> keys[i] != keys[j])
      && (forall k :: k in entries <==> k in keys)
    }

    function Get(k: string): (r: Option<V>)
      ensures r.Some? <==> k in entries
      ensures r.Some? ==> r.value == entries[k]
    {
      if k in entries then Some(entries[k]) else None
    }

    /** `d.items()`: the `(key, value)` pairs in insertion order. */
    function Items(): (r: seq<(string, V)>)
      requires Valid()
      ensures |r| == |keys| && forall i :: 0 <= i < |keys| ==> r[i] == (keys[i], entries[keys[i]])
    {
      seq(|keys|, i requires 0 <= i < |keys| => (keys[i], entries[keys[i]]))
    }

    /** `d[k] = v`. */
    function Set(k: string, v: V): (d: Dict<V>)
      requires Valid()
      ensures d.Valid()
      ensures d.entries == entries[k := v]
      ensures d.keys == if k in entries then keys else keys + [k]
    {
      if k in entries then Dict(keys, entries[k := v]) else Dict(keys + [k], entries[k := v])
    }

    /**
     * `d.update(other)`: the entries of `other` win; keys already present keep their places
     * and the new ones follow in the order `other` has them.
     */
    function Update(other: Dict<V>): (d: Dict<V>)
      requires Valid() && other.Valid()
      ensures d.Valid()
      ensures d.entries == entries + other.entries
      ensures |keys| <= |d.keys| && d.keys[..|keys|] == keys
    {
      var added := NewKeys(other.keys, entries);
      NewKeysSpec(other.keys, entries);
      var d := Dict(keys + added, entries + other.entries);
      assert d.keys[..|keys|] == keys;
      forall i, j | 0 <= i < j < |d.keys| ensures d.keys[i] != d.keys[j] {
        if j >= |keys| {
          assert d.keys[j] == added[j - |keys|] && d.keys[j] in added;
          if i < |keys| {
            assert d.keys[i] == keys[i] && keys[i] in keys;
          } else {
            assert d.keys[i] == added[i - |keys|];
          }
        }
      }
      forall k ensures k in d.entries <==> k in d.keys {
        assert k in d.keys <==> k in keys || k in added;
      }
      d
    }
  }

  /** The keys of `ks` that `present` does not hold yet, in order. */
  function NewKeys<V>(ks: seq<string>, present: map<string, V>): seq<string> {
    if |ks| == 0 then []
    else (if ks[0] in present then [] else [ks[0]]) + NewKeys(ks[1..], present)
  }

  lemma {:induction false} NewKeysSpec<V>(ks: seq<string>, present: map<string, V>)
    requires forall i, j :: 0 <= i < j < |ks| ==> ks[i] != ks[j]
    ensures forall k :: k in NewKeys(ks, present) <==> k in ks && k !in present
    ensures forall i, j :: 0 <= i < j < |NewKeys(ks, present)| ==>
              NewKeys(ks, present)[i] != NewKeys(ks, present)[j]
  {
    if |ks| > 0 {
      NewKeysSpec(ks[1..], present);
      assert forall k :: k in ks <==> k == ks[0] || k in ks[1..];
    }
  }

  function Empty<V>(): (d: Dict<V>)
    ensures d.Valid() && d.entries == map[] && d.keys == []
  {
    Dict([], map[])
  }

  /** The dictionary built by assigning `d[k] = v` for each pair in turn, starting empty. */
  function FromPairs<V>(pairs: seq<(string, V)>): (d: Dict<V>)
    ensures d.Valid()
  {
    if |pairs| == 0 then Empty()
    else FromPairs(pairs[..|pairs| - 1]).Set(pairs[|pairs| - 1].0, pairs[|pairs| - 1].1)
  }

  /** One more pair is one more assignment. */
  lemma FromPairsSnoc<V>(pairs: seq<(string, V)>, k: string, v: V)
    ensures FromPairs(pairs + [(k, v)]) == FromPairs(pairs).Set(k, v)
  {
    assert (pairs + [(k, v)])[..|pairs|] == pairs;
  }

  /** Assigning the pairs of `more` one at a time, after those of `pairs`. */
  lemma FromPairsNext<V>(pairs: seq<(string, V)>, more: seq<(string, V)>, i: nat)
    requires i < |more|
    ensures FromPairs(pairs + more[..i + 1]) == FromPairs(pairs + more[..i]).Set(more[i].0, more[i].1)
  {
    assert pairs + more[..i + 1] == (pairs + more[..i]) + [more[i]];
    FromPairsSnoc(pairs + more[..i], more[i].0, more[i].1);
  }

  /** The keys the pairs assign. */
  function Names<V>(pairs: seq<(string, V)>): set<string> {
    set i | 0 <= i < |pairs| :: pairs[i].0
  }

  /** The keys assigned by two runs of assignments, one after the other. */
  lemma NamesEmpty<V>(pairs: seq<(string, V)>)
    ensures Names(pairs) == {} <==> pairs == []
  {
    if pairs != [] {
      assert pairs[0].0 in Names(pairs);
    }
  }

  lemma NamesAppend<V>(a: seq<(string, V)>, b: seq<(string, V)>)
    ensures Names(a + b) == Names(a) + Names(b)
  {
    forall k | k in Names(a + b) ensures k in Names(a) + Names(b) {
      var i :| 0 <= i < |a + b| && (a + b)[i].0 == k;
      if i >= |a| {
        assert b[i - |a|].0 == k;
      }
    }
    forall k | k in Names(a) + Names(b) ensures k in Names(a + b) {
      if k in Names(a) {
        var i :| 0 <= i < |a| && a[i].0 == k;
        assert (a + b)[i].0 == k;
      } else {
        var i :| 0 <= i < |b| && b[i].0 == k;
        assert (a + b)[|a| + i].0 == k;
      }
    }
  }

  /** The value the last assignment to `k` stores. */
  function LastValue<V>(pairs: seq<(string, V)>, k: string): V
    requires k in Names(pairs)
    decreases |pairs|
  {
    var last := pairs[|pairs| - 1];
    if last.0 == k then last.1
    else
      assert k in Names(pairs[..|pairs| - 1]) by {
        var i :| 0 <= i < |pairs| && pairs[i].0 == k;
        assert pairs[..|pairs| - 1][i].0 == k;
      }
      LastValue(pairs[..|pairs| - 1], k)
  }

  /** Assigning pair by pair: exactly the assigned keys are present, each with its last value. */
  lemma {:induction false} FromPairsEntries<V>(pairs: seq<(string, V)>)
    ensures FromPairs(pairs).entries.Keys == Names(pairs)
    ensures forall k | k in Names(pairs) :: FromPairs(pairs).entries[k] == LastValue(pairs, k)
    decreases |pairs|
  {
    if |pairs| > 0 {
      var init := pairs[..|pairs| - 1];
      FromPairsEntries(init);
      assert Names(pairs) == Names(init) + {pairs[|pairs| - 1].0} by {
        forall k | k in Names(pairs) ensures k in Names(init) + {pairs[|pairs| - 1].0} {
          var i :| 0 <= i < |pairs| && pairs[i].0 == k;
          if i < |pairs| - 1 {
            assert init[i].0 == k;
          }
        }
        forall k | k in Names(init) ensures k in Names(pairs) {
          var i :| 0 <= i < |init| && init[i].0 == k;
          assert pairs[i].0 == k;
        }
      }
    }
  }

  /** The last assignment to `k` is one of the assignments made. */
  lemma {:induction false} LastValueMade<V>(pairs: seq<(string, V)>, k: string) returns (i: nat)
    requires k in Names(pairs)
    ensures i < |pairs| && pairs[i] == (k, LastValue(pairs, k))
    decreases |pairs|
  {
    var last := pairs[|pairs| - 1];
    if last.0 == k {
      i := |pairs| - 1;
    } else {
      var init := pairs[..|pairs| - 1];
      assert k in Names(init) by {
        var j :| 0 <= j < |pairs| && pairs[j].0 == k;
        assert init[j].0 == k;
      }
      i := LastValueMade(init, k);
      assert pairs[i] == init[i];
    }
  }

  /** A key the later pairs assign takes its value from them; otherwise from the earlier ones. */
  lemma {:induction false} LastValueAppend<V>(a: seq<(string, V)>, b: seq<(string, V)>, k: string)
    requires k in Names(a + b)
    ensures k in Names(b) ==> LastValue(a + b, k) == LastValue(b, k)
    ensures k !in Names(b) ==> k in Names(a) && LastValue(a + b, k) == LastValue(a, k)
    decreases |b|
  {
    if |b| == 0 {
      assert a + b == a;
    } else {
      var ab := a + b;
      assert ab[..|ab| - 1] == a + b[..|b| - 1];
      assert ab[|ab| - 1] == b[|b| - 1];
      if b[|b| - 1].0 != k {
        assert k in Names(a + b[..|b| - 1]) by {
          var i :| 0 <= i < |ab| && ab[i].0 == k;
          assert (a + b[..|b| - 1])[i].0 == k;
        }
        LastValueAppend(a, b[..|b| - 1], k);
        if k in Names(b) {
          var i :| 0 <= i < |b| && b[i].0 == k;
          assert b[..|b| - 1][i].0 == k;
        } else {
          assert forall i :: 0 <= i < |b| - 1 ==> b[..|b| - 1][i] == b[i];
        }
      } else {
        assert b[|b| - 1].0 == k;
      }
    }
  }
}
