// Python's `sorted` on the string keys of a dict: code points, shorter prefix first.
module Ordering {
  predicate Below(a: string, b: string) {
    if b == [] then false
    else if a == [] then true
    else a[0] < b[0] || (a[0] == b[0] && Below(a[1..], b[1..]))
  }

  /** At the first place where two strings differ, the smaller one ends or has the smaller
      character. */
  lemma {:induction false} BelowIs(a: string, b: string)
    ensures Below(a, b) <==> exists k :: DiffersAt(a, b, k)
  {
    if a != [] && b != [] && a[0] == b[0] {
      BelowIs(a[1..], b[1..]);
      assert a == [a[0]] + a[1..] && b == [b[0]] + b[1..];
      if k: nat :| DiffersAt(a[1..], b[1..], k) { assert DiffersAt(a, b, k + 1); }
      if k: nat :| DiffersAt(a, b, k) { assert k > 0 && DiffersAt(a[1..], b[1..], k - 1); }
    } else if Below(a, b) {
      assert DiffersAt(a, b, 0);
    }
  }

  ghost predicate DiffersAt(a: string, b: string, k: nat) {
    k <= |a| && k < |b| && a[..k] == b[..k] && (k == |a| || a[k] < b[k])
  }

  lemma {:induction false} Total(a: string, b: string)
    ensures a == b || Below(a, b) || Below(b, a)
  {
    if a != [] && b != [] && a[0] == b[0] {
      Total(a[1..], b[1..]);
      assert a == [a[0]] + a[1..] && b == [b[0]] + b[1..];
    }
  }

  lemma {:induction false} Transitive(a: string, b: string, c: string)
    requires Below(a, b) && Below(b, c)
    ensures Below(a, c)
  {
    if a != [] && a[0] == b[0] == c[0] { Transitive(a[1..], b[1..], c[1..]); }
  }

  lemma {:induction false} Irreflexive(a: string)
    ensures !Below(a, a)
  {
    if a != [] { Irreflexive(a[1..]); }
  }

  ghost predicate Ascending(s: seq<string>) {
    forall i, j :: 0 <= i < j < |s| ==> Below(s[i], s[j])
  }

  ghost predicate Sorts(s: seq<string>, keys: set<string>) {
    Ascending(s) && (forall k :: k in s <==> k in keys)
  }

  lemma AscendingDistinct(s: seq<string>, i: nat, j: nat)
    requires Ascending(s) && i < j < |s|
    ensures s[i] != s[j]
  {
    Irreflexive(s[i]);
  }

  // The sorted listing of a set is unique, so it does not matter how it was obtained.
  lemma {:induction false} SortsUnique(s: seq<string>, t: seq<string>, keys: set<string>)
    requires Sorts(s, keys) && Sorts(t, keys)
    ensures s == t
    decreases |s|
  {
    EmptySorts(s, keys);
    EmptySorts(t, keys);
    if s != [] {
      if s[0] != t[0] {
        assert s[0] in keys && s[0] in t && t[0] in keys && t[0] in s;
        var i :| 0 <= i < |t| && t[i] == s[0];
        var j :| 0 <= j < |s| && s[j] == t[0];
        assert Below(t[0], s[0]) && Below(s[0], t[0]);
        Transitive(s[0], t[0], s[0]);
        Irreflexive(s[0]);
      }
      TailSorts(s, keys);
      TailSorts(t, keys);
      SortsUnique(s[1..], t[1..], keys - {s[0]});
      assert s == [s[0]] + s[1..] && t == [t[0]] + t[1..];
    }
  }

  lemma EmptySorts(s: seq<string>, keys: set<string>)
    requires Sorts(s, keys)
    ensures s == [] <==> keys == {}
  {
    if s != [] { assert s[0] in keys; }
    if keys != {} { var k :| k in keys; assert k in s; }
  }

  lemma TailSorts(s: seq<string>, keys: set<string>)
    requires Sorts(s, keys) && s != []
    ensures Sorts(s[1..], keys - {s[0]})
  {
    forall k ensures k in s[1..] <==> k in keys - {s[0]} {
      if k in s[1..] {
        var i :| 0 <= i < |s| - 1 && s[1..][i] == k;
        assert s[i + 1] == k;
        AscendingDistinct(s, 0, i + 1);
      }
      if k in keys - {s[0]} {
        var i :| 0 <= i < |s| && s[i] == k;
        assert s[1..][i - 1] == k;
      }
    }
  }

  // Where a new key goes.
  method Insert(s: seq<string>, key: string) returns (r: seq<string>)
    requires Ascending(s) && key !in s
    ensures Ascending(r) && forall k :: k in r <==> k in s || k == key
  {
    var i := 0;
    while i < |s| && Below(s[i], key)
      invariant 0 <= i <= |s|
      invariant forall j :: 0 <= j < i ==> Below(s[j], key)
    {
      i := i + 1;
    }
    forall j | i <= j < |s| ensures Below(key, s[j]) {
      Total(s[i], key);
      if i < j { Transitive(key, s[i], s[j]); }
    }
    r := s[..i] + [key] + s[i..];
    assert forall k :: k in s <==> k in s[..i] || k in s[i..];
  }

  method Sort(keys: set<string>) returns (s: seq<string>)
    ensures Sorts(s, keys)
  {
    s := [];
    var rest := keys;
    while rest != {}
      invariant rest <= keys && Ascending(s)
      invariant forall k :: k in s <==> k in keys - rest
      decreases rest
    {
      var k :| k in rest;
      s := Insert(s, k);
      rest := rest - {k};
    }
  }

  lemma {:induction false} CanSort(keys: set<string>)
    ensures exists s :: Sorts(s, keys)
  {
    if keys == {} {
      assert Sorts([], keys);
    } else {
      var k :| k in keys;
      CanSort(keys - {k});
      var s :| Sorts(s, keys - {k});
      InsertExists(s, k);
      var r :| Ascending(r) && forall x :: x in r <==> x in s || x == k;
      assert Sorts(r, keys);
    }
  }

  lemma {:induction false} InsertExists(s: seq<string>, key: string)
    requires Ascending(s) && key !in s
    ensures exists r :: Ascending(r) && forall k :: k in r <==> k in s || k == key
  {
    if s == [] || Below(key, s[0]) {
      var r := [key] + s;
      if s != [] {
        forall j | 0 < j < |s| ensures Below(key, s[j]) { Transitive(key, s[0], s[j]); }
      }
      assert Ascending(r);
    } else {
      Total(key, s[0]);
      InsertExists(s[1..], key);
      var t :| Ascending(t) && forall k :: k in t <==> k in s[1..] || k == key;
      var r := [s[0]] + t;
      forall j | 0 <= j < |t| ensures Below(s[0], t[j]) {
        if t[j] != key {
          assert t[j] in t && t[j] in s[1..];
          var i :| 0 <= i < |s[1..]| && s[1..][i] == t[j];
          assert s[i + 1] == t[j];
        }
      }
      assert Ascending(r);
      assert s == [s[0]] + s[1..];
      assert forall k :: k in r <==> k in s || k == key;
    }
  }

  ghost function Sorted(keys: set<string>): (s: seq<string>)
    ensures Sorts(s, keys)
  {
    CanSort(keys);
    var s :| Sorts(s, keys);
    s
  }
}
