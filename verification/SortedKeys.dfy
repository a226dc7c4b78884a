/** The iteration order of `BTreeMap<String, _>`. */
module SortedKeys {

  /** Rust orders strings by their bytes, which is the order of their characters' code points. */
  predicate AtMost(a: string, b: string) {
    a == [] || (b != [] && (a[0] < b[0] || (a[0] == b[0] && AtMost(a[1..], b[1..]))))
  }

  /** `a` is the beginning of `b`, or has the smaller character where they first differ. */
  ghost predicate ComesFirst(a: string, b: string) {
    exists i :: 0 <= i <= |a| && i <= |b| && a[..i] == b[..i] && (i == |a| || (i < |b| && a[i] < b[i]))
  }

  lemma {:induction false} AtMostExactly(a: string, b: string)
    ensures AtMost(a, b) <==> ComesFirst(a, b)
  {
    if a == [] {
      assert a[..0] == b[..0];
    } else if b != [] {
      AtMostExactly(a[1..], b[1..]);
      if a[0] < b[0] {
        assert a[..0] == b[..0];
      } else if a[0] == b[0] && AtMost(a[1..], b[1..]) {
        var i :| 0 <= i <= |a[1..]| && i <= |b[1..]| && a[1..][..i] == b[1..][..i]
            && (i == |a[1..]| || (i < |b[1..]| && a[1..][i] < b[1..][i]));
        assert a[..i + 1] == [a[0]] + a[1..][..i] && b[..i + 1] == [b[0]] + b[1..][..i];
      }
      if ComesFirst(a, b) && a[0] >= b[0] {
        LaterDifference(a, b);
      }
    }
  }

  lemma LaterDifference(a: string, b: string)
    requires a != [] && b != [] && ComesFirst(a, b) && a[0] >= b[0]
    ensures a[0] == b[0] && ComesFirst(a[1..], b[1..])
  {
    var i :| 0 <= i <= |a| && i <= |b| && a[..i] == b[..i] && (i == |a| || (i < |b| && a[i] < b[i]));
    assert i > 0;
    assert a[..i][0] == a[0] && b[..i][0] == b[0];
    assert a[1..][..i - 1] == a[..i][1..] && b[1..][..i - 1] == b[..i][1..];
  }

  lemma {:induction false} AtMostIsTotal(a: string, b: string)
    ensures AtMost(a, b) || AtMost(b, a)
  {
    if a != [] && b != [] {
      AtMostIsTotal(a[1..], b[1..]);
    }
  }

  lemma {:induction false} AtMostIsAntisymmetric(a: string, b: string)
    requires AtMost(a, b) && AtMost(b, a)
    ensures a == b
  {
    if a != [] {
      AtMostIsAntisymmetric(a[1..], b[1..]);
      assert a == [a[0]] + a[1..] && b == [b[0]] + b[1..];
    }
  }

  lemma {:induction false} AtMostIsTransitive(a: string, b: string, c: string)
    requires AtMost(a, b) && AtMost(b, c)
    ensures AtMost(a, c)
  {
    if a != [] && a[0] == b[0] && b[0] == c[0] {
      AtMostIsTransitive(a[1..], b[1..], c[1..]);
    }
  }

  predicate IsLeast(keys: set<string>, m: string) {
    m in keys && forall k <- keys :: AtMost(m, k)
  }

  lemma {:induction false} LeastExists(keys: set<string>)
    requires keys != {}
    ensures exists m :: IsLeast(keys, m)
    decreases |keys|
  {
    var x :| x in keys;
    var others := keys - {x};
    AtMostIsTotal(x, x);
    if others == {} {
      assert forall k <- keys :: k == x || k in others;
      assert IsLeast(keys, x);
    } else {
      LeastExists(others);
      var m :| IsLeast(others, m);
      AtMostIsTotal(x, m);
      if AtMost(m, x) {
        assert IsLeast(keys, m);
      } else {
        forall k | k in keys ensures AtMost(x, k) {
          if k != x {
            AtMostIsTransitive(x, m, k);
          }
        }
        assert IsLeast(keys, x);
      }
    }
  }

  lemma LeastIsUnique(keys: set<string>)
    ensures forall m, n :: IsLeast(keys, m) && IsLeast(keys, n) ==> m == n
  {
    forall m, n | IsLeast(keys, m) && IsLeast(keys, n) ensures m == n {
      AtMostIsAntisymmetric(m, n);
    }
  }

  function Least(keys: set<string>): (m: string)
    requires keys != {}
    ensures IsLeast(keys, m)
  {
    LeastExists(keys);
    LeastIsUnique(keys);
    var m :| IsLeast(keys, m);
    m
  }

  /** In order, and none twice. */
  ghost predicate Ascending(ks: seq<string>) {
    forall i, j :: 0 <= i < j < |ks| ==> ks[i] != ks[j] && AtMost(ks[i], ks[j])
  }

  /** The keys in ascending order, each once. */
  function InOrder(keys: set<string>): (ks: seq<string>)
    ensures forall k :: k in ks <==> k in keys
    ensures Ascending(ks)
    ensures forall i, j :: 0 <= i < j < |ks| ==> ks[i] != ks[j]
    decreases |keys|
  {
    if keys == {} then []
    else
      var m := Least(keys);
      var rest := InOrder(keys - {m});
      assert forall j :: 0 <= j < |rest| ==> rest[j] in keys - {m};
      [m] + rest
  }

  lemma TailHas(a: seq<string>, k: string)
    requires a != [] && Ascending(a)
    ensures k in a[1..] <==> k in a && k != a[0]
  {
    assert a == [a[0]] + a[1..];
  }

  lemma FirstIsAtMost(a: seq<string>, k: string)
    requires Ascending(a) && k in a && k != a[0]
    ensures AtMost(a[0], k)
  {
  }

  /** There is one ascending arrangement of a set of keys. */
  lemma {:induction false} OrderIsDetermined(a: seq<string>, b: seq<string>)
    requires Ascending(a) && Ascending(b) && forall k :: k in a <==> k in b
    ensures a == b
  {
    if a != [] {
      assert a[0] in b && b[0] in a;
      if a[0] != b[0] {
        FirstIsAtMost(a, b[0]);
        FirstIsAtMost(b, a[0]);
        AtMostIsAntisymmetric(a[0], b[0]);
      }
      forall k ensures k in a[1..] <==> k in b[1..] {
        TailHas(a, k);
        TailHas(b, k);
      }
      OrderIsDetermined(a[1..], b[1..]);
      assert a == [a[0]] + a[1..] && b == [b[0]] + b[1..];
    }
    assert b != [] ==> b[0] in b;
  }

  lemma NextKey(keys: seq<string>, i: nat)
    requires i < |keys|
    ensures keys[..i + 1] == keys[..i] + [keys[i]]
  {
  }

  /** Picking keys in order stays in order. */
  lemma AscendingGrows(keys: seq<string>, i: nat, picked: seq<string>)
    requires i < |keys| && Ascending(keys) && Ascending(picked) && forall k :: k in picked ==> k in keys[..i]
    ensures Ascending(picked + [keys[i]])
  {
    forall u | 0 <= u < |picked| ensures picked[u] != keys[i] && AtMost(picked[u], keys[i]) {
      assert picked[u] in keys[..i];
    }
  }
}
