/**
 * Generic list operations the dashboard uses on every screen: JavaScript's
 * `Array.prototype.filter` and `Array.prototype.find`, and a "keys are
 * pairwise distinct" predicate for the id fields of its records.
 */
module Lists {

  datatype Option<+T> = None | Some(value: T)

  /** `s.filter(keep)`: the elements of `s` satisfying `keep`, in their original order. */
  function Filter<T>(s: seq<T>, keep: T -> bool): (r: seq<T>)
    ensures |r| <= |s|
    ensures forall x :: x in r ==> x in s && keep(x)
  {
    if s == [] then []
    else (if keep(s[0]) then [s[0]] else []) + Filter(s[1..], keep)
  }

  /** Every element of `s` that satisfies `keep` survives the filter (the converse is in Filter's contract). */
  lemma {:induction false} FilterKeeps<T>(s: seq<T>, keep: T -> bool, x: T)
    requires x in s && keep(x)
    ensures x in Filter(s, keep)
  {
    if s[0] != x {
      FilterKeeps(s[1..], keep, x);
    }
  }

  /** Filtering distributes over concatenation, so relative order is kept. */
  lemma {:induction false} FilterConcat<T>(a: seq<T>, b: seq<T>, keep: T -> bool)
    ensures Filter(a + b, keep) == Filter(a, keep) + Filter(b, keep)
  {
    if a == [] {
      assert a + b == b;
    } else {
      assert (a + b)[0] == a[0];
      assert (a + b)[1..] == a[1..] + b;
      FilterConcat(a[1..], b, keep);
    }
  }

  /** A filter that rejects nothing returns its input unchanged. */
  lemma {:induction false} FilterAllKept<T>(s: seq<T>, keep: T -> bool)
    requires forall x :: x in s ==> keep(x)
    ensures Filter(s, keep) == s
  {
    if s != [] {
      FilterAllKept(s[1..], keep);
    }
  }

  /** A filter that rejects exactly one position removes exactly that element. */
  lemma {:induction false} FilterDropOne<T>(s: seq<T>, keep: T -> bool, k: nat)
    requires k < |s| && !keep(s[k])
    requires forall i :: 0 <= i < |s| && i != k ==> keep(s[i])
    ensures Filter(s, keep) == s[..k] + s[k + 1..]
  {
    if k == 0 {
      FilterAllKept(s[1..], keep);
    } else {
      FilterDropOne(s[1..], keep, k - 1);
      assert s[..k] == [s[0]] + s[1..][..k - 1];
      assert s[k + 1..] == s[1..][k..];
    }
  }

  /** A filter keeps every occurrence of an accepted value and none of a rejected one. */
  lemma {:induction false} FilterMultiplicity<T>(s: seq<T>, keep: T -> bool, x: T)
    ensures multiset(Filter(s, keep))[x] == if keep(x) then multiset(s)[x] else 0
  {
    if s != [] {
      FilterMultiplicity(s[1..], keep, x);
      assert s == [s[0]] + s[1..];
      assert multiset(s) == multiset([s[0]]) + multiset(s[1..]);
    }
  }

  /** `s.findIndex(pred)`: the first position whose element satisfies `pred`, if any. */
  function FindIndex<T>(s: seq<T>, pred: T -> bool): (r: Option<nat>)
    ensures r.Some? ==> r.value < |s| && pred(s[r.value])
    ensures r.Some? ==> forall j :: 0 <= j < r.value ==> !pred(s[j])
    ensures r.None? <==> forall j :: 0 <= j < |s| ==> !pred(s[j])
  {
    if s == [] then None
    else if pred(s[0]) then Some(0)
    else match FindIndex(s[1..], pred)
      case None => None
      case Some(k) => Some(k + 1)
  }

  /** `s.find(pred)`: the first element that satisfies `pred`, or `undefined` (None). */
  function Find<T>(s: seq<T>, pred: T -> bool): (r: Option<T>)
    ensures r.None? <==> forall j :: 0 <= j < |s| ==> !pred(s[j])
    ensures r.Some? ==> exists k :: 0 <= k < |s| && s[k] == r.value && pred(s[k])
                                    && forall j :: 0 <= j < k ==> !pred(s[j])
  {
    match FindIndex(s, pred)
    case None => None
    case Some(k) => Some(s[k])
  }

  /** No two positions of `s` carry the same key. */
  ghost predicate Distinct<T, K>(s: seq<T>, key: T -> K) {
    forall i, j :: 0 <= i < j < |s| ==> key(s[i]) != key(s[j])
  }

  /** Filtering never introduces a repeated key. */
  lemma {:induction false} FilterDistinct<T, K>(s: seq<T>, keep: T -> bool, key: T -> K)
    requires Distinct(s, key)
    ensures Distinct(Filter(s, keep), key)
  {
    if s != [] {
      var rest := Filter(s[1..], keep);
      FilterDistinct(s[1..], keep, key);
      if keep(s[0]) {
        var r := [s[0]] + rest;
        assert Filter(s, keep) == r;
        forall i, j | 0 <= i < j < |r| ensures key(r[i]) != key(r[j]) {
          if i == 0 {
            assert r[j] in rest;
            assert r[j] in s[1..];
            var k :| 0 <= k < |s[1..]| && s[1..][k] == r[j];
            assert s[k + 1] == r[j];
          } else {
            assert r[i] == rest[i - 1] && r[j] == rest[j - 1];
          }
        }
      }
    }
  }

  /** With distinct keys, the element carrying a given key is the only one that does. */
  lemma DistinctKeyUnique<T, K>(s: seq<T>, key: T -> K, i: nat, j: nat)
    requires Distinct(s, key)
    requires i < |s| && j < |s| && key(s[i]) == key(s[j])
    ensures i == j
  {
  }
}
