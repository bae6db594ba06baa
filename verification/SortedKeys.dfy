/** The keys of a string map in sorted order. */
module SortedKeys {

  predicate LessOrEqual(a: string, b: string) {
    a == [] || (b != [] && (a[0] < b[0] || (a[0] == b[0] && LessOrEqual(a[1..], b[1..]))))
  }

  lemma {:induction false} Antisymmetric(a: string, b: string)
    requires LessOrEqual(a, b) && LessOrEqual(b, a)
    ensures a == b
    decreases |a|
  {
    if a != [] {
      Antisymmetric(a[1..], b[1..]);
      assert a == [a[0]] + a[1..] && b == [b[0]] + b[1..];
    }
  }

  lemma {:induction false} Transitive(a: string, b: string, c: string)
    requires LessOrEqual(a, b) && LessOrEqual(b, c)
    ensures LessOrEqual(a, c)
    decreases |a|
  {
    if a != [] && a[0] == b[0] == c[0] {
      Transitive(a[1..], b[1..], c[1..]);
    }
  }

  lemma {:induction false} Total(a: string, b: string)
    ensures LessOrEqual(a, b) || LessOrEqual(b, a)
    decreases |a|
  {
    if a != [] && b != [] && a[0] == b[0] {
      Total(a[1..], b[1..]);
    }
  }

  ghost predicate Sorted(keys: seq<string>) {
    forall i, j :: 0 <= i < j < |keys| ==> LessOrEqual(keys[i], keys[j]) && keys[i] != keys[j]
  }

  ghost predicate SortedKeysOf(keys: seq<string>, s: set<string>) {
    Sorted(keys) && forall k :: k in keys <==> k in s
  }

  lemma HasMember(keys: seq<string>)
    ensures keys != [] ==> exists k :: k in keys
  {
    if keys != [] {
      assert keys[0] in keys;
    }
  }

  // There is only one sorted list of a set.
  lemma {:induction false} SortedUnique(a: seq<string>, b: seq<string>, s: set<string>)
    requires SortedKeysOf(a, s) && SortedKeysOf(b, s)
    ensures a == b
    decreases |a|
  {
    if a == [] {
      HasMember(b);
    } else {
      assert a[0] in a;
      assert a[0] in b;
      var i :| 0 <= i < |b| && b[i] == a[0];
      assert b[0] in b;
      assert b[0] in a;
      var j :| 0 <= j < |a| && a[j] == b[0];
      if i > 0 || j > 0 {
        Antisymmetric(a[0], b[0]);
      }
      forall k
        ensures k in a[1..] <==> k in s - {a[0]}
        ensures k in b[1..] <==> k in s - {a[0]}
      {
        assert k in a <==> k == a[0] || k in a[1..];
        assert k in b <==> k == b[0] || k in b[1..];
      }
      SortedUnique(a[1..], b[1..], s - {a[0]});
      assert a == [a[0]] + a[1..] && b == [b[0]] + b[1..];
    }
  }

  function Insert(keys: seq<string>, k: string): seq<string> {
    if keys == [] || (LessOrEqual(k, keys[0])) then [k] + keys else [keys[0]] + Insert(keys[1..], k)
  }

  lemma {:induction false} InsertSorts(keys: seq<string>, k: string)
    requires Sorted(keys) && k !in keys
    ensures Sorted(Insert(keys, k))
    ensures forall x :: x in Insert(keys, k) <==> x == k || x in keys
  {
    if keys == [] {
    } else if LessOrEqual(k, keys[0]) {
      forall i | 0 <= i < |keys|
        ensures LessOrEqual(k, keys[i])
      {
        if i > 0 {
          Transitive(k, keys[0], keys[i]);
        }
      }
    } else {
      Total(k, keys[0]);
      var rest := keys[1..];
      assert keys == [keys[0]] + rest;
      InsertSorts(rest, k);
      var r := Insert(rest, k);
      forall i | 0 <= i < |r|
        ensures LessOrEqual(keys[0], r[i]) && keys[0] != r[i]
      {
        assert r[i] in r;
        if r[i] != k {
          var j :| 0 <= j < |rest| && rest[j] == r[i];
          assert keys[j + 1] == r[i];
        }
      }
    }
  }

  // The sorted list of a set.
  ghost function SortedList(s: set<string>): (keys: seq<string>)
    ensures SortedKeysOf(keys, s)
    decreases |s|
  {
    if s == {} then []
    else
      var k :| k in s;
      var rest := SortedList(s - {k});
      InsertSorts(rest, k);
      Insert(rest, k)
  }

  // util.SortedStringKeys: collect the keys in whatever order the map yields them, then sort.
  method SortedStringKeys<V>(m: map<string, V>) returns (keys: seq<string>)
    ensures SortedKeysOf(keys, m.Keys)
  {
    keys := [];
    var rest := m.Keys;
    while rest != {}
      invariant rest <= m.Keys && SortedKeysOf(keys, m.Keys - rest)
      decreases |rest|
    {
      var k :| k in rest;
      InsertSorts(keys, k);
      keys := Insert(keys, k);
      rest := rest - {k};
    }
  }
}
