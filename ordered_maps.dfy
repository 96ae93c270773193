/**
 * Insertion-ordered string-keyed maps: the own entries of a JavaScript object
 * (`Object.entries`) and the entries of a `Map`. Setting a key that is present
 * replaces its value in place; setting a new key appends it.
 */
module OrderedMaps {
  import opened Wrappers

  type Entries<V> = seq<(string, V)>

  function Keys<V>(m: Entries<V>): seq<string> {
    seq(|m|, i requires 0 <= i < |m| => m[i].0)
  }

  predicate Distinct(ks: seq<string>) {
    forall i, j :: 0 <= i < j < |ks| ==> ks[i] != ks[j]
  }

  predicate UniqueKeys<V>(m: Entries<V>) {
    Distinct(Keys(m))
  }

  lemma KeysSnoc<V>(m: Entries<V>)
    requires m != []
    ensures Keys(m) == Keys(m[..|m| - 1]) + [m[|m| - 1].0]
    ensures UniqueKeys(m) ==> UniqueKeys(m[..|m| - 1])
  {
    assert Keys(m[..|m| - 1]) == Keys(m)[..|m| - 1];
  }

  /** `obj[k]` or `m.get(k)`; the latest entry wins (keys are unique in every map the sheets build). */
  function Get<V>(m: Entries<V>, k: string): (r: Option<V>)
    ensures r.Some? <==> k in Keys(m)
  {
    if m == [] then None
    else
      KeysSnoc(m);
      if m[|m| - 1].0 == k then Some(m[|m| - 1].1) else Get(m[..|m| - 1], k)
  }

  /** In a map with unique keys, looking up the key of an entry yields that entry's value. */
  lemma {:induction false} GetAt<V>(m: Entries<V>, i: nat)
    requires UniqueKeys(m) && i < |m|
    ensures Get(m, m[i].0) == Some(m[i].1)
  {
    KeysSnoc(m);
    if i < |m| - 1 {
      assert Keys(m)[i] == m[i].0 && Keys(m)[|m| - 1] == m[|m| - 1].0;
      GetAt(m[..|m| - 1], i);
    }
  }

  /** `m.set(k, v)` or `obj[k] = v`. */
  function Set<V>(m: Entries<V>, k: string, v: V): (r: Entries<V>)
    ensures Keys(r) == if k in Keys(m) then Keys(m) else Keys(m) + [k]
    ensures UniqueKeys(m) ==> UniqueKeys(r)
  {
    if k in Keys(m) then seq(|m|, i requires 0 <= i < |m| => if m[i].0 == k then (k, v) else m[i])
    else
      assert Keys(m + [(k, v)]) == Keys(m) + [k];
      m + [(k, v)]
  }

  /** A set touches only the entry holding the key, or appends one entry. */
  lemma SetEntries<V>(m: Entries<V>, k: string, v: V)
    ensures k in Keys(m) ==> |Set(m, k, v)| == |m|
    ensures k in Keys(m) ==> forall g :: 0 <= g < |m| ==> Set(m, k, v)[g] == if m[g].0 == k then (k, v) else m[g]
    ensures k !in Keys(m) ==> Set(m, k, v) == m + [(k, v)]
  {
  }

  /** After a set, the key reads back the new value and every other key reads as before. */
  lemma GetSet<V>(m: Entries<V>, k: string, v: V, k': string)
    requires UniqueKeys(m)
    ensures Get(Set(m, k, v), k') == if k' == k then Some(v) else Get(m, k')
  {
    var r := Set(m, k, v);
    if k' == k {
      if k in Keys(m) {
        var i :| 0 <= i < |m| && Keys(m)[i] == k;
        assert r[i] == (k, v);
        GetAt(r, i);
      } else {
        assert r[|m|] == (k, v);
        GetAt(r, |m|);
      }
    } else if k' in Keys(m) {
      var j :| 0 <= j < |m| && Keys(m)[j] == k';
      assert r[j] == m[j];
      GetAt(m, j);
      GetAt(r, j);
    }
  }

  /** Appends, in order, each element of `ns` that is not already present: the keys of a map after a run of sets. */
  function AppendNew(ks: seq<string>, ns: seq<string>): (r: seq<string>)
    ensures |ks| <= |r| && r[..|ks|] == ks
    ensures forall x :: x in r <==> x in ks || x in ns
    ensures Distinct(ks) ==> Distinct(r)
  {
    if ns == [] then ks
    else
      var p := AppendNew(ks, ns[..|ns| - 1]);
      var x := ns[|ns| - 1];
      assert forall y :: y in ns <==> y in ns[..|ns| - 1] || y == x;
      if x in p then p else p + [x]
  }

  /** A run of `set(key, f(key, value))` calls, one per entry of `es`, in order. */
  function SetAllBy<V, W>(m: Entries<W>, es: Entries<V>, f: (string, V) -> W): (r: Entries<W>)
    ensures Keys(r) == AppendNew(Keys(m), Keys(es))
    ensures UniqueKeys(m) ==> UniqueKeys(r)
  {
    if es == [] then
      assert Keys(es) == [];
      m
    else
      var p := SetAllBy(m, es[..|es| - 1], f);
      var e := es[|es| - 1];
      KeysSnoc(es);
      Set(p, e.0, f(e.0, e.1))
  }

  /** One more entry is one more set. */
  lemma SetAllBySnoc<V, W>(m: Entries<W>, es: Entries<V>, i: nat, f: (string, V) -> W)
    requires i < |es|
    ensures SetAllBy(m, es[..i + 1], f) == Set(SetAllBy(m, es[..i], f), es[i].0, f(es[i].0, es[i].1))
  {
    assert es[..i + 1][..i] == es[..i] && es[..i + 1][i] == es[i];
  }

  /** After `SetAllBy`, a key set by `es` holds the value made from its (last) entry; any other key is as before. */
  lemma {:induction false} GetSetAllBy<V, W>(m: Entries<W>, es: Entries<V>, f: (string, V) -> W, k: string)
    requires UniqueKeys(m)
    ensures Get(SetAllBy(m, es, f), k) == match Get(es, k) case Some(d) => Some(f(k, d)) case None => Get(m, k)
  {
    if es != [] {
      var e := es[|es| - 1];
      GetSetAllBy(m, es[..|es| - 1], f, k);
      GetSet(SetAllBy(m, es[..|es| - 1], f), e.0, f(e.0, e.1), k);
    }
  }

  /** A run of `if (!m.has(key)) m.set(key, f(key))`, one per element of `ks`, in order. */
  function SetMissingAll<W>(m: Entries<W>, ks: seq<string>, f: string -> W): (r: Entries<W>)
    ensures Keys(r) == AppendNew(Keys(m), ks)
    ensures UniqueKeys(m) ==> UniqueKeys(r)
    ensures |m| <= |r| && r[..|m|] == m
  {
    if ks == [] then m
    else
      var p := SetMissingAll(m, ks[..|ks| - 1], f);
      var k := ks[|ks| - 1];
      if k in Keys(p) then p else Set(p, k, f(k))
  }

  /** One more key is one more set-if-missing. */
  lemma SetMissingAllSnoc<W>(m: Entries<W>, ks: seq<string>, i: nat, f: string -> W)
    requires i < |ks|
    ensures SetMissingAll(m, ks[..i + 1], f) ==
      var p := SetMissingAll(m, ks[..i], f);
      if Get(p, ks[i]).None? then Set(p, ks[i], f(ks[i])) else p
  {
    assert ks[..i + 1][..i] == ks[..i] && ks[..i + 1][i] == ks[i];
  }

  /** A key already present keeps its value; a key added by `SetMissingAll` holds `f(key)`. */
  lemma {:induction false} GetSetMissingAll<W>(m: Entries<W>, ks: seq<string>, f: string -> W, k: string)
    requires UniqueKeys(m)
    ensures Get(SetMissingAll(m, ks, f), k) ==
      if k in Keys(m) then Get(m, k) else if k in ks then Some(f(k)) else None
  {
    if ks != [] {
      var p := SetMissingAll(m, ks[..|ks| - 1], f);
      var last := ks[|ks| - 1];
      GetSetMissingAll(m, ks[..|ks| - 1], f, k);
      assert k in ks <==> k in ks[..|ks| - 1] || k == last;
      if last !in Keys(p) {
        GetSet(p, last, f(last), k);
      }
    }
  }
}
