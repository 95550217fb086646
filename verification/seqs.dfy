/** The JavaScript array operations the source uses (`find`, `filter`, `map`, `slice`), on sequences. */
module Seqs {
  import opened Wrappers

  /** `Array.prototype.find`: the first element satisfying `p`, or `undefined`. */
  function Find<T>(s: seq<T>, p: T -> bool): (r: Option<T>)
    ensures r.Some? ==> r.value in s && p(r.value)
    ensures r.None? <==> forall i :: 0 <= i < |s| ==> !p(s[i])
  {
    if s == [] then None
    else if p(s[0]) then Some(s[0])
    else Find(s[1..], p)
  }

  /** `find` returns the element at the first index that satisfies the predicate. */
  lemma {:induction false} FindFirst<T>(s: seq<T>, p: T -> bool, k: int)
    requires 0 <= k < |s| && p(s[k])
    requires forall j :: 0 <= j < k ==> !p(s[j])
    ensures Find(s, p) == Some(s[k])
  {
    if k > 0 {
      FindFirst(s[1..], p, k - 1);
    }
  }

  /** The element `find` returns sits at the first index that satisfies the predicate. */
  lemma {:induction false} FindIsFirst<T>(s: seq<T>, p: T -> bool)
    requires Find(s, p).Some?
    ensures exists k :: 0 <= k < |s| && s[k] == Find(s, p).value && forall j :: 0 <= j < k ==> !p(s[j])
  {
    if !p(s[0]) {
      FindIsFirst(s[1..], p);
      var k :| 0 <= k < |s[1..]| && s[1..][k] == Find(s[1..], p).value && forall j :: 0 <= j < k ==> !p(s[1..][j]);
      assert s[k + 1] == Find(s, p).value;
      forall j | 0 <= j < k + 1 ensures !p(s[j]) {
        if j > 0 { assert s[j] == s[1..][j - 1]; }
      }
    }
  }

  /** Whatever `find` returns sits at the first index that satisfies the predicate. */
  lemma FindFirstIfAny<T>(s: seq<T>, p: T -> bool)
    ensures Find(s, p).Some? ==>
      exists k :: 0 <= k < |s| && s[k] == Find(s, p).value && forall j :: 0 <= j < k ==> !p(s[j])
  {
    if Find(s, p).Some? {
      FindIsFirst(s, p);
    }
  }

  /** Searching a concatenation looks in the second part only when the first has no match. */
  lemma {:induction false} FindAppend<T>(s: seq<T>, t: seq<T>, p: T -> bool)
    ensures Find(s + t, p) == if Find(s, p).Some? then Find(s, p) else Find(t, p)
  {
    if s != [] {
      assert (s + t)[1..] == s[1..] + t;
      FindAppend(s[1..], t, p);
    } else {
      assert s + t == t;
    }
  }

  /** `Array.prototype.filter`: the elements satisfying `p`, in their original order. */
  function Filter<T>(s: seq<T>, p: T -> bool): (r: seq<T>)
    ensures |r| <= |s|
    ensures forall i :: 0 <= i < |r| ==> r[i] in s && p(r[i])
    ensures forall i :: 0 <= i < |s| && p(s[i]) ==> s[i] in r
  {
    if s == [] then []
    else (if p(s[0]) then [s[0]] else []) + Filter(s[1..], p)
  }

  /** Filtering distributes over concatenation, so it keeps the relative order of what it keeps. */
  lemma {:induction false} FilterAppend<T>(s: seq<T>, t: seq<T>, p: T -> bool)
    ensures Filter(s + t, p) == Filter(s, p) + Filter(t, p)
  {
    if s == [] {
      assert s + t == t;
    } else {
      assert (s + t)[1..] == s[1..] + t;
      FilterAppend(s[1..], t, p);
    }
  }

  /** A predicate that holds of every element filters nothing out. */
  lemma {:induction false} FilterKeepsAll<T>(s: seq<T>, p: T -> bool)
    requires forall i :: 0 <= i < |s| ==> p(s[i])
    ensures Filter(s, p) == s
  {
    if s != [] {
      FilterKeepsAll(s[1..], p);
    }
  }

  /** `Array.prototype.map`. */
  function Map<T, U>(s: seq<T>, f: T -> U): (r: seq<U>)
    ensures |r| == |s|
    ensures forall i :: 0 <= i < |s| ==> r[i] == f(s[i])
  {
    if s == [] then [] else [f(s[0])] + Map(s[1..], f)
  }

  /** Mapping distributes over concatenation. */
  lemma {:induction false} MapAppend<T, U>(s: seq<T>, t: seq<T>, f: T -> U)
    ensures Map(s + t, f) == Map(s, f) + Map(t, f)
  {
    assert |Map(s + t, f)| == |Map(s, f) + Map(t, f)|;
    forall i | 0 <= i < |s + t| ensures Map(s + t, f)[i] == (Map(s, f) + Map(t, f))[i] {
      if i < |s| {
        assert (s + t)[i] == s[i];
      } else {
        assert (s + t)[i] == t[i - |s|];
      }
    }
  }

  /** Two functions that agree on every element map to the same sequence. */
  lemma MapAgree<T, U>(s: seq<T>, f: T -> U, g: T -> U)
    requires forall i :: 0 <= i < |s| ==> f(s[i]) == g(s[i])
    ensures Map(s, f) == Map(s, g)
  {
  }

  /** Two predicates that agree on every element filter the same elements. */
  lemma {:induction false} FilterAgree<T>(s: seq<T>, p: T -> bool, q: T -> bool)
    requires forall i :: 0 <= i < |s| ==> p(s[i]) == q(s[i])
    ensures Filter(s, p) == Filter(s, q)
  {
    if s != [] {
      FilterAgree(s[1..], p, q);
    }
  }

  /** `Array.prototype.slice(0, n)`: the first `n` elements, or all of them when there are fewer. */
  function Take<T>(s: seq<T>, n: nat): (r: seq<T>)
    ensures |r| == if n < |s| then n else |s|
    ensures forall i :: 0 <= i < |r| ==> r[i] == s[i]
  {
    if n < |s| then s[..n] else s
  }

  /** No element after the first of `s` has key `k`; written recursively so that it evaluates on literals. */
  predicate KeyAbsent<T>(s: seq<T>, k: string, key: T -> string) {
    s == [] || (key(s[0]) != k && KeyAbsent(s[1..], k, key))
  }

  /** Every element's key differs from the keys of the elements after it. */
  predicate UniqueKeys<T>(s: seq<T>, key: T -> string) {
    s == [] || (KeyAbsent(s[1..], key(s[0]), key) && UniqueKeys(s[1..], key))
  }

  lemma {:induction false} KeyAbsentAt<T>(s: seq<T>, k: string, key: T -> string, j: int)
    requires KeyAbsent(s, k, key) && 0 <= j < |s|
    ensures key(s[j]) != k
  {
    if j > 0 {
      KeyAbsentAt(s[1..], k, key, j - 1);
    }
  }

  /** The recursive check implies that no two elements share a key. */
  lemma {:induction false} UniqueKeysDistinct<T>(s: seq<T>, key: T -> string)
    requires UniqueKeys(s, key)
    ensures forall i, j :: 0 <= i < j < |s| ==> key(s[i]) != key(s[j])
  {
    if s != [] {
      UniqueKeysDistinct(s[1..], key);
      forall i, j | 0 <= i < j < |s| ensures key(s[i]) != key(s[j]) {
        if i == 0 {
          KeyAbsentAt(s[1..], key(s[0]), key, j - 1);
        } else {
          assert s[i] == s[1..][i - 1] && s[j] == s[1..][j - 1];
        }
      }
    }
  }

  /** No key of `a` is a key of `b`. */
  predicate Apart<T>(a: seq<T>, b: seq<T>, key: T -> string) {
    a == [] || (KeyAbsent(b, key(a[0]), key) && Apart(a[1..], b, key))
  }

  lemma {:induction false} KeyAbsentSplit<T>(a: seq<T>, b: seq<T>, k: string, key: T -> string)
    ensures KeyAbsent(a + b, k, key) <==> KeyAbsent(a, k, key) && KeyAbsent(b, k, key)
  {
    if a == [] {
      assert a + b == b;
    } else {
      assert (a + b)[1..] == a[1..] + b;
      KeyAbsentSplit(a[1..], b, k, key);
    }
  }

  /** Two lists with unique keys and no key in common concatenate to a list with unique keys. */
  lemma {:induction false} UniqueKeysAppend<T>(a: seq<T>, b: seq<T>, key: T -> string)
    requires UniqueKeys(a, key) && UniqueKeys(b, key) && Apart(a, b, key)
    ensures UniqueKeys(a + b, key)
  {
    if a == [] {
      assert a + b == b;
    } else {
      assert (a + b)[1..] == a[1..] + b;
      KeyAbsentSplit(a[1..], b, key(a[0]), key);
      UniqueKeysAppend(a[1..], b, key);
    }
  }

  lemma {:induction false} KeyPresentAt<T>(s: seq<T>, k: string, key: T -> string)
    requires !KeyAbsent(s, k, key)
    ensures exists j :: 0 <= j < |s| && key(s[j]) == k
  {
    if key(s[0]) != k {
      KeyPresentAt(s[1..], k, key);
      var j :| 0 <= j < |s[1..]| && key(s[1..][j]) == k;
      assert key(s[j + 1]) == k;
    }
  }

  /** Every element satisfies `p`; written recursively so that it evaluates on literals. */
  predicate All<T>(s: seq<T>, p: T -> bool) {
    s == [] || (p(s[0]) && All(s[1..], p))
  }

  lemma {:induction false} AllAt<T>(s: seq<T>, p: T -> bool, i: int)
    requires All(s, p) && 0 <= i < |s|
    ensures p(s[i])
  {
    if i > 0 {
      AllAt(s[1..], p, i - 1);
    }
  }

  /** Every reference made by an element of `s` is the key of some element of `t`. */
  predicate KeysResolve<T, U>(s: seq<T>, ref: T -> Option<string>, t: seq<U>, key: U -> string) {
    s == [] || ((ref(s[0]).Some? ==> !KeyAbsent(t, ref(s[0]).value, key)) && KeysResolve(s[1..], ref, t, key))
  }

  lemma {:induction false} KeysResolveAt<T, U>(s: seq<T>, ref: T -> Option<string>, t: seq<U>, key: U -> string, i: int)
    requires KeysResolve(s, ref, t, key) && 0 <= i < |s| && ref(s[i]).Some?
    ensures exists j :: 0 <= j < |t| && key(t[j]) == ref(s[i]).value
  {
    if i > 0 {
      KeysResolveAt(s[1..], ref, t, key, i - 1);
    } else {
      KeyPresentAt(t, ref(s[0]).value, key);
    }
  }
}
