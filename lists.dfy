/**
 * The list updates the components apply to the lists they hold in state:
 * `[...list, x]`, `list.map(e => e.id === x.id ? x : e)`,
 * `list.filter(p)` and `list.find(p)`. Each is stated against its meaning
 * element by element.
 */
module Lists {
  import opened Wrappers

  /** `list.map(e => key(e) == key(x) ? x : e)`: every element with the key of `x` becomes `x`. */
  function Replace<T, K(==)>(s: seq<T>, key: T -> K, x: T): (r: seq<T>)
    ensures |r| == |s|
    ensures forall i :: 0 <= i < |s| ==> r[i] == if key(s[i]) == key(x) then x else s[i]
  {
    if s == [] then []
    else [if key(s[0]) == key(x) then x else s[0]] + Replace(s[1..], key, x)
  }

  /** `list.filter(p)`. */
  function Filter<T(!new)>(s: seq<T>, p: T -> bool): (r: seq<T>)
    ensures |r| <= |s|
    ensures forall e :: e in r <==> e in s && p(e)
  {
    if s == [] then []
    else (if p(s[0]) then [s[0]] else []) + Filter(s[1..], p)
  }

  /** Filtering keeps the order of what it keeps: it distributes over concatenation. */
  lemma {:induction false} FilterAppend<T(!new)>(a: seq<T>, b: seq<T>, p: T -> bool)
    ensures Filter(a + b, p) == Filter(a, p) + Filter(b, p)
    decreases |a|
  {
    if a == [] {
      assert a + b == b;
    } else {
      assert (a + b)[1..] == a[1..] + b;
      FilterAppend(a[1..], b, p);
    }
  }

  /** Filtering a list whose elements all pass leaves it unchanged. */
  lemma {:induction false} FilterAllPass<T(!new)>(s: seq<T>, p: T -> bool)
    requires forall e :: e in s ==> p(e)
    ensures Filter(s, p) == s
    decreases |s|
  {
    if s != [] {
      FilterAllPass(s[1..], p);
    }
  }

  /** Filtering twice by the same test is filtering once. */
  lemma FilterIdempotent<T(!new)>(s: seq<T>, p: T -> bool)
    ensures Filter(Filter(s, p), p) == Filter(s, p)
  {
    FilterAllPass(Filter(s, p), p);
  }

  /** `list.filter(e => key(e) !== k)`: drop every element with key `k`. */
  function RemoveKey<T(!new), K(==)>(s: seq<T>, key: T -> K, k: K): (r: seq<T>)
    ensures r == Filter(s, e => key(e) != k)
    ensures forall e :: e in r <==> e in s && key(e) != k
  {
    Filter(s, e => key(e) != k)
  }

  /** Appending and then removing by a key nobody else has gives back the list. */
  lemma RemoveAppended<T(!new), K>(s: seq<T>, key: T -> K, x: T)
    requires forall e :: e in s ==> key(e) != key(x)
    ensures RemoveKey(s + [x], key, key(x)) == s
  {
    var p := e => key(e) != key(x);
    FilterAppend(s, [x], p);
    assert Filter([x], p) == [];
    FilterAllPass(s, p);
  }

  /** `list.find(p)`: the first element that passes, or none. */
  function Find<T>(s: seq<T>, p: T -> bool): (r: Option<T>)
    ensures r.None? <==> forall i :: 0 <= i < |s| ==> !p(s[i])
    ensures r.Some? ==> exists i :: 0 <= i < |s| && s[i] == r.value && p(s[i]) && forall j :: 0 <= j < i ==> !p(s[j])
  {
    if s == [] then None
    else if p(s[0]) then Some(s[0])
    else
      var r := Find(s[1..], p);
      assert r.None? ==> forall i :: 0 <= i < |s| ==> !p(s[i]) by {
        if r.None? {
          forall i | 0 <= i < |s| ensures !p(s[i]) {
            if i > 0 { assert s[i] == s[1..][i - 1]; }
          }
        }
      }
      assert r.Some? ==> exists i :: 0 <= i < |s| && s[i] == r.value && p(s[i]) && forall j :: 0 <= j < i ==> !p(s[j]) by {
        if r.Some? {
          var i' :| 0 <= i' < |s[1..]| && s[1..][i'] == r.value && p(s[1..][i']) && forall j :: 0 <= j < i' ==> !p(s[1..][j]);
          assert s[i' + 1] == r.value;
          forall j | 0 <= j < i' + 1 ensures !p(s[j]) {
            if j > 0 { assert s[j] == s[1..][j - 1]; }
          }
        }
      }
      r
  }
}
