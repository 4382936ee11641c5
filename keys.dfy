/** The order DynamoDB keeps string sort keys in (code point by code point,
    a proper prefix first), and what a descending query with a `Limit`
    returns: the newest keys, newest first. */
module SortKeys {

  /** `a` sorts strictly before `b`. */
  predicate Before(a: string, b: string)
    decreases |a|
  {
    if a == [] then b != []
    else if b == [] then false
    else if a[0] != b[0] then a[0] < b[0]
    else Before(a[1..], b[1..])
  }

  lemma {:induction false} BeforeIrreflexive(a: string)
    ensures !Before(a, a)
    decreases |a|
  {
    if a != [] {
      BeforeIrreflexive(a[1..]);
    }
  }

  lemma {:induction false} BeforeTransitive(a: string, b: string, c: string)
    requires Before(a, b) && Before(b, c)
    ensures Before(a, c)
    decreases |a|
  {
    if a != [] && b != [] && c != [] && a[0] == b[0] && b[0] == c[0] {
      BeforeTransitive(a[1..], b[1..], c[1..]);
    }
  }

  /** Any two different keys are ordered one way or the other. */
  lemma {:induction false} BeforeTotal(a: string, b: string)
    requires a != b
    ensures Before(a, b) || Before(b, a)
    decreases |a|
  {
    if a != [] && b != [] && a[0] == b[0] {
      BeforeTotal(a[1..], b[1..]);
    }
  }

  lemma {:induction false} BeforeAsymmetric(a: string, b: string)
    requires Before(a, b)
    ensures !Before(b, a)
  {
    if Before(b, a) {
      BeforeTransitive(a, b, a);
      BeforeIrreflexive(a);
    }
  }

  /** `k` is the newest of `keys`. */
  predicate IsNewest(k: string, keys: set<string>) {
    k in keys && forall other :: other in keys ==> !Before(k, other)
  }

  /** A non-empty set of keys has a newest one. */
  lemma {:induction false} NewestExists(keys: set<string>)
    requires keys != {}
    ensures exists k :: IsNewest(k, keys)
    decreases |keys|
  {
    var x :| x in keys;
    var rest := keys - {x};
    if rest == {} {
      assert keys == {x};
      BeforeIrreflexive(x);
      assert IsNewest(x, keys);
    } else {
      NewestExists(rest);
      var m :| IsNewest(m, rest);
      if Before(m, x) {
        forall other | other in keys
          ensures !Before(x, other)
        {
          if other != x && Before(x, other) {
            BeforeTransitive(m, x, other);
          }
          BeforeIrreflexive(x);
        }
        assert IsNewest(x, keys);
      } else {
        assert IsNewest(m, keys);
      }
    }
  }

  /** There is only one newest key. */
  lemma NewestUnique(a: string, b: string, keys: set<string>)
    requires IsNewest(a, keys) && IsNewest(b, keys)
    ensures a == b
  {
    if a != b {
      BeforeTotal(a, b);
    }
  }

  /** The newest of a non-empty set of keys. */
  function MaxKey(keys: set<string>): (k: string)
    requires keys != {}
    ensures IsNewest(k, keys)
  {
    NewestExists(keys);
    var k :| IsNewest(k, keys);
    assert forall k' :: IsNewest(k', keys) ==> k' == k by {
      forall k' | IsNewest(k', keys)
        ensures k' == k
      {
        NewestUnique(k', k, keys);
      }
    }
    k
  }

  /** `query(ScanIndexForward=False, Limit=limit)`: at most `limit` keys,
      newest first. */
  function Newest(keys: set<string>, limit: nat): (r: seq<string>)
    ensures |r| == if limit < |keys| then limit else |keys|
    ensures forall i :: 0 <= i < |r| ==> r[i] in keys
    ensures forall i, j :: 0 <= i < j < |r| ==> Before(r[j], r[i])
    ensures forall k :: k in keys && k !in r ==> forall i :: 0 <= i < |r| ==> Before(k, r[i])
    decreases limit
  {
    if limit == 0 || keys == {} then []
    else
      var m := MaxKey(keys);
      var rest := Newest(keys - {m}, limit - 1);
      var r := [m] + rest;
      assert forall k :: k in keys && k != m ==> Before(k, m) by {
        forall k | k in keys && k != m
          ensures Before(k, m)
        {
          BeforeTotal(k, m);
        }
      }
      assert |keys - {m}| == |keys| - 1;
      r
  }

  /** Keys listed by `Newest` are all different. */
  lemma NewestDistinct(keys: set<string>, limit: nat)
    ensures var r := Newest(keys, limit);
      forall i, j :: 0 <= i < j < |r| ==> r[i] != r[j]
  {
    var r := Newest(keys, limit);
    forall i, j | 0 <= i < j < |r|
      ensures r[i] != r[j]
    {
      BeforeAsymmetric(r[j], r[i]);
    }
  }

  /** With a limit at least the number of keys, every key is listed. */
  lemma NewestAll(keys: set<string>, limit: nat)
    requires limit >= |keys|
    ensures forall k :: k in keys <==> k in Newest(keys, limit)
  {
    var r := Newest(keys, limit);
    forall k | k in keys
      ensures k in r
    {
      if k !in r {
        assert false;
      }
    }
  }
}
