/** Ordered string-keyed mappings, kept as sequences of (key, value) pairs so
    that insertion order (which drives the order of form fields) survives. */
module Pairs {

  datatype Option<T> = None | Some(value: T)

  /** The keys of an ordered mapping, in order. */
  function Keys<V>(es: seq<(string, V)>): (ks: seq<string>)
    ensures |ks| == |es|
    ensures forall i :: 0 <= i < |es| ==> ks[i] == es[i].0
  {
    if es == [] then [] else [es[0].0] + Keys(es[1..])
  }

  /** No key occurs twice, as in a Python dict. */
  predicate UniqueKeys<V>(es: seq<(string, V)>)
  {
    forall i, j :: 0 <= i < j < |es| ==> es[i].0 != es[j].0
  }

  predicate NoDups(xs: seq<string>)
  {
    forall i, j :: 0 <= i < j < |xs| ==> xs[i] != xs[j]
  }

  /** The value bound to `k`: the first binding, which is the only one when keys are unique. */
  function Lookup<V>(es: seq<(string, V)>, k: string): (r: Option<V>)
    ensures r.None? <==> k !in Keys(es)
    ensures r.Some? ==> exists i :: 0 <= i < |es| && es[i] == (k, r.value)
  {
    if es == [] then None
    else if es[0].0 == k then Some(es[0].1)
    else
      var r := Lookup(es[1..], k);
      assert r.Some? ==> exists i :: 0 <= i < |es[1..]| && es[1..][i] == (k, r.value);
      r
  }

  lemma {:induction false} LookupAt<V>(es: seq<(string, V)>, i: nat)
    requires UniqueKeys(es) && i < |es|
    ensures Lookup(es, es[i].0) == Some(es[i].1)
  {
    if i > 0 {
      assert es[0].0 != es[i].0;
      assert es[1..][i - 1] == es[i];
      LookupAt(es[1..], i - 1);
    }
  }

  /** The mapping with `k` removed and every other entry kept in order (Python's `dict.pop`). */
  function Without<V>(es: seq<(string, V)>, k: string): (r: seq<(string, V)>)
    ensures |r| <= |es|
    ensures k !in Keys(r)
    ensures k !in Keys(es) ==> r == es
  {
    if es == [] then []
    else if es[0].0 == k then Without(es[1..], k)
    else [es[0]] + Without(es[1..], k)
  }

  /** Removal drops exactly the entries bound to `k`. */
  lemma {:induction false} WithoutEntries<V>(es: seq<(string, V)>, k: string)
    ensures k !in Keys(Without(es, k))
    ensures forall i :: 0 <= i < |Without(es, k)| ==> Without(es, k)[i] in es && Without(es, k)[i].0 != k
    ensures forall i :: 0 <= i < |es| && es[i].0 != k ==> es[i] in Without(es, k)
  {
    if es != [] {
      var tail := es[1..];
      WithoutEntries(tail, k);
      var rest := Without(tail, k);
      var w := if es[0].0 == k then rest else [es[0]] + rest;
      assert Without(es, k) == w;
      forall i | 0 <= i < |rest| ensures rest[i] in es {
        var j :| 0 <= j < |tail| && tail[j] == rest[i];
        assert es[j + 1] == rest[i];
      }
      forall i | 0 <= i < |w| ensures w[i] in es && w[i].0 != k {
        if es[0].0 != k && i > 0 {
          assert w[i] == rest[i - 1];
        }
      }
      forall i | 0 <= i < |es| && es[i].0 != k ensures es[i] in w {
        if i > 0 {
          assert es[i] == tail[i - 1];
        }
      }
      forall i | 0 <= i < |w| ensures Keys(w)[i] != k {
      }
    }
  }

  lemma {:induction false} WithoutUnique<V>(es: seq<(string, V)>, k: string)
    requires UniqueKeys(es)
    ensures UniqueKeys(Without(es, k))
  {
    if es != [] {
      var tail := es[1..];
      assert UniqueKeys(tail) by {
        forall a, b | 0 <= a < b < |tail| ensures tail[a].0 != tail[b].0 {
          assert tail[a] == es[a + 1] && tail[b] == es[b + 1];
        }
      }
      WithoutUnique(tail, k);
      if es[0].0 != k {
        WithoutEntries(tail, k);
        var rest := Without(tail, k);
        forall i | 0 <= i < |rest| ensures rest[i].0 != es[0].0 {
          var j :| 0 <= j < |tail| && tail[j] == rest[i];
          assert es[j + 1] == rest[i];
        }
        ConsUnique(es[0], rest);
      }
    }
  }

  lemma ConsUnique<V>(e: (string, V), rest: seq<(string, V)>)
    requires UniqueKeys(rest) && forall i :: 0 <= i < |rest| ==> rest[i].0 != e.0
    ensures UniqueKeys([e] + rest)
  {
    var w := [e] + rest;
    forall a, b | 0 <= a < b < |w| ensures w[a].0 != w[b].0 {
      assert w[b] == rest[b - 1];
      if a > 0 {
        assert w[a] == rest[a - 1];
      }
    }
  }

  /** Membership in a list of names, forgetting the order and the repetitions:
      what converting a JSON list into a Python set does. */
  function Dedup(xs: seq<string>): (r: seq<string>)
    ensures forall x :: x in r <==> x in xs
    ensures NoDups(r)
  {
    if xs == [] then []
    else
      var r := Dedup(xs[..|xs| - 1]);
      assert xs == xs[..|xs| - 1] + [xs[|xs| - 1]];
      if xs[|xs| - 1] in r then r else r + [xs[|xs| - 1]]
  }

  // ---------------------------------------------------------------------
  // Subsequences

  /** `a` is `b` with some entries left out and the rest in their order. */
  ghost predicate IsSubsequence<T>(a: seq<T>, b: seq<T>)
    decreases |b|
  {
    if a == [] then true
    else if b == [] then false
    else if a[0] == b[0] then IsSubsequence(a[1..], b[1..])
    else IsSubsequence(a, b[1..])
  }

  lemma {:induction false} SubsequenceDrop<T>(a: seq<T>, b: seq<T>)
    requires b != [] && IsSubsequence(a, b[1..])
    ensures IsSubsequence(a, b)
    decreases |b|, 0
  {
    if a != [] && a[0] == b[0] {
      SubsequenceTail(a, b[1..]);
    }
  }

  lemma {:induction false} SubsequenceTail<T>(a: seq<T>, b: seq<T>)
    requires a != [] && IsSubsequence(a, b)
    ensures IsSubsequence(a[1..], b)
    decreases |b|, 1
  {
    if a[0] == b[0] {
      if a[1..] != [] {
        SubsequenceTail(a[1..], b[1..]);
        SubsequenceDrop(a[1..], b);
      }
    } else {
      SubsequenceTail(a, b[1..]);
      if a[1..] != [] {
        SubsequenceDrop(a[1..], b);
      }
    }
  }

  /** A subsequence of a prefix is a subsequence of the whole. */
  lemma SubsequencePrefix<T>(a: seq<T>, b: seq<T>, i: nat)
    requires i <= |b| && IsSubsequence(a, b[..i])
    ensures IsSubsequence(a, b)
  {
    SubsequenceAppend(a, b[..i], b[i..]);
    assert b[..i] + b[i..] == b;
  }

  lemma {:induction false} SubsequenceAppend<T>(a: seq<T>, c: seq<T>, d: seq<T>)
    requires IsSubsequence(a, c)
    decreases |c|
    ensures IsSubsequence(a, c + d)
  {
    if a != [] && c != [] {
      assert (c + d)[0] == c[0];
      assert (c + d)[1..] == c[1..] + d;
      if a[0] == c[0] {
        SubsequenceAppend(a[1..], c[1..], d);
      } else {
        SubsequenceAppend(a, c[1..], d);
      }
    }
  }

  /** Appending one element to the longer sequence, or to both, keeps a subsequence. */
  lemma {:induction false} SubsequenceExtend<T>(a: seq<T>, b: seq<T>, x: T)
    requires IsSubsequence(a, b)
    decreases |b|
    ensures IsSubsequence(a, b + [x]) && IsSubsequence(a + [x], b + [x])
  {
    if b == [] {
      assert a + [x] == [x];
      assert (a + [x])[1..] == [];
    } else {
      assert (b + [x])[1..] == b[1..] + [x];
      if a == [] {
        SubsequenceExtend(a, b[1..], x);
        assert a + [x] == [x];
        assert (a + [x])[1..] == [];
      } else if a[0] == b[0] {
        SubsequenceExtend(a[1..], b[1..], x);
        assert (a + [x])[1..] == a[1..] + [x];
      } else {
        SubsequenceExtend(a, b[1..], x);
      }
    }
  }

  /** Removal keeps the remaining entries in their order. */
  lemma {:induction false} WithoutInOrder<V>(es: seq<(string, V)>, k: string)
    ensures IsSubsequence(Without(es, k), es)
  {
    if es != [] {
      WithoutInOrder(es[1..], k);
      var rest := Without(es[1..], k);
      if es[0].0 != k {
        assert ([es[0]] + rest)[1..] == rest;
      } else {
        SubsequenceDrop(rest, es);
      }
    }
  }
}
