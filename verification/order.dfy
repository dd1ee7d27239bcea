/** The key order of a `BTreeMap<String, _>`: lexicographic comparison of the
    strings' UTF-8 bytes, which is the same as lexicographic comparison of their
    code points. `help` lists commands in this order. */
module StringOrder {

  /** `a <= b` in lexicographic order: `a` is a prefix of `b`, or at the first
      position where they differ `a` has the smaller character. */
  predicate Below(a: string, b: string)
    decreases |a|
  {
    |a| == 0 || (|b| > 0 && (a[0] < b[0] || (a[0] == b[0] && Below(a[1..], b[1..]))))
  }

  lemma {:induction false} BelowReflexive(a: string)
    ensures Below(a, a)
    decreases |a|
  {
    if |a| > 0 {
      BelowReflexive(a[1..]);
    }
  }

  lemma {:induction false} BelowAntisymmetric(a: string, b: string)
    requires Below(a, b) && Below(b, a)
    ensures a == b
    decreases |a|
  {
    if |a| > 0 {
      BelowAntisymmetric(a[1..], b[1..]);
      assert a == [a[0]] + a[1..];
      assert b == [b[0]] + b[1..];
    }
  }

  lemma {:induction false} BelowTransitive(a: string, b: string, c: string)
    requires Below(a, b) && Below(b, c)
    ensures Below(a, c)
    decreases |a|
  {
    if |a| > 0 && a[0] == b[0] && b[0] == c[0] {
      BelowTransitive(a[1..], b[1..], c[1..]);
    }
  }

  lemma {:induction false} BelowTotal(a: string, b: string)
    ensures Below(a, b) || Below(b, a)
    decreases |a|
  {
    if |a| > 0 && |b| > 0 && a[0] == b[0] {
      BelowTotal(a[1..], b[1..]);
    }
  }

  predicate IsLeast(m: string, keys: set<string>) {
    m in keys && forall k :: k in keys ==> Below(m, k)
  }

  /** Every non-empty finite set of strings has a least element. */
  lemma {:induction false} LeastExists(keys: set<string>)
    requires keys != {}
    ensures exists m :: IsLeast(m, keys)
    decreases |keys|
  {
    var x :| x in keys;
    if keys == {x} {
      BelowReflexive(x);
      assert IsLeast(x, keys);
    } else {
      LeastExists(keys - {x});
      var m :| IsLeast(m, keys - {x});
      BelowTotal(m, x);
      if Below(m, x) {
        assert IsLeast(m, keys);
      } else {
        forall k | k in keys
          ensures Below(x, k)
        {
          if k == x {
            BelowReflexive(x);
          } else {
            BelowTransitive(x, m, k);
          }
        }
        assert IsLeast(x, keys);
      }
    }
  }

  lemma LeastUnique(keys: set<string>)
    ensures forall m, m' :: IsLeast(m, keys) && IsLeast(m', keys) ==> m == m'
  {
    forall m, m' | IsLeast(m, keys) && IsLeast(m', keys)
      ensures m == m'
    {
      BelowAntisymmetric(m, m');
    }
  }

  /** Strictly increasing, hence also free of duplicates. */
  predicate StrictlySorted(s: seq<string>) {
    forall i, j :: 0 <= i < j < |s| ==> Below(s[i], s[j]) && s[i] != s[j]
  }

  /** The keys of a map in the order a `BTreeMap` iterates them. */
  function SortedKeys(keys: set<string>): (r: seq<string>)
    ensures |r| == |keys|
    ensures forall i :: 0 <= i < |r| ==> r[i] in keys
    ensures forall k :: k in keys ==> k in r
    ensures StrictlySorted(r)
    decreases |keys|
  {
    if keys == {} then []
    else
      LeastExists(keys);
      LeastUnique(keys);
      var m :| IsLeast(m, keys);
      var rest := SortedKeys(keys - {m});
      LeastFirst(m, keys, rest);
      [m] + rest
  }

  /** The least key followed by the sorted remaining keys is the sorted key list. */
  lemma LeastFirst(m: string, keys: set<string>, rest: seq<string>)
    requires IsLeast(m, keys)
    requires |rest| == |keys - {m}|
    requires forall i :: 0 <= i < |rest| ==> rest[i] in keys - {m}
    requires forall k :: k in keys - {m} ==> k in rest
    requires StrictlySorted(rest)
    ensures |[m] + rest| == |keys|
    ensures forall i :: 0 <= i < |[m] + rest| ==> ([m] + rest)[i] in keys
    ensures forall k :: k in keys ==> k in [m] + rest
    ensures StrictlySorted([m] + rest)
  {
    var r := [m] + rest;
    assert forall i :: 0 < i < |r| ==> r[i] == rest[i - 1];
    assert forall i :: 0 <= i < |rest| ==> Below(m, rest[i]) && m != rest[i];
    forall k | k in keys
      ensures k in r
    {
      if k != m {
        assert k in rest;
        var i :| 0 <= i < |rest| && rest[i] == k;
        assert r[i + 1] == k;
      }
    }
  }
}
