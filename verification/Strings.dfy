/** Go's order on strings and sort.Strings over the keys of a map. */
module Strings {

  predicate Less(a: string, b: string) {
    b != "" && (a == "" || a[0] < b[0] || (a[0] == b[0] && Less(a[1..], b[1..])))
  }

  lemma {:induction false} LessTransitive(a: string, b: string, c: string)
    requires Less(a, b) && Less(b, c)
    ensures Less(a, c)
  {
    if a != "" && a[0] == b[0] && b[0] == c[0] { LessTransitive(a[1..], b[1..], c[1..]); }
  }

  lemma {:induction false} LessIrreflexive(a: string)
    ensures !Less(a, a)
  {
    if a != "" { LessIrreflexive(a[1..]); }
  }

  lemma {:induction false} LessTotal(a: string, b: string)
    ensures Less(a, b) || a == b || Less(b, a)
  {
    if a != "" && b != "" && a[0] == b[0] {
      LessTotal(a[1..], b[1..]);
      assert a == [a[0]] + a[1..] && b == [b[0]] + b[1..];
    }
  }

  /** At the first place where they differ, a ends or has the smaller character. */
  predicate SmallerAt(a: string, b: string, k: nat) {
    k <= |a| && k < |b| && a[..k] == b[..k] && (k == |a| || a[k] < b[k])
  }

  lemma {:induction false} LessMeans(a: string, b: string)
    ensures Less(a, b) <==> exists k: nat :: SmallerAt(a, b, k)
  {
    if a != "" && b != "" && a[0] == b[0] {
      LessMeans(a[1..], b[1..]);
      if k: nat :| SmallerAt(a[1..], b[1..], k) {
        assert a[..k + 1] == [a[0]] + a[1..][..k] && b[..k + 1] == [b[0]] + b[1..][..k];
        assert SmallerAt(a, b, k + 1);
      }
      if k: nat :| SmallerAt(a, b, k) { assert k > 0 && SmallerAt(a[1..], b[1..], k - 1); }
    } else {
      if Less(a, b) { assert SmallerAt(a, b, 0); }
      if k: nat :| SmallerAt(a, b, k) { assert k > 0 ==> a[..k][0] == b[..k][0]; }
    }
  }

  ghost predicate Increasing(s: seq<string>) {
    forall i, j :: 0 <= i < j < |s| ==> Less(s[i], s[j])
  }

  ghost predicate Enumerates(s: seq<string>, keys: set<string>) {
    forall x :: x in s <==> x in keys
  }

  /** The first element is the smallest, so it is the same in every sorted enumeration. */
  lemma SameFirst(s: seq<string>, t: seq<string>, keys: set<string>)
    requires Increasing(s) && Increasing(t) && Enumerates(s, keys) && Enumerates(t, keys) && s != []
    ensures t != [] && s[0] == t[0]
  {
    assert s[0] in keys && s[0] in t;
    assert t[0] in keys && t[0] in s;
    var i :| 0 <= i < |s| && s[i] == t[0];
    var j :| 0 <= j < |t| && t[j] == s[0];
    LessIrreflexive(s[0]);
    if 0 < i && 0 < j {
      LessTransitive(s[0], s[i], t[j]);
    }
  }

  lemma DropFirst(s: seq<string>, keys: set<string>)
    requires Increasing(s) && Enumerates(s, keys) && s != []
    ensures Increasing(s[1..]) && Enumerates(s[1..], keys - {s[0]})
  {
    LessIrreflexive(s[0]);
    assert s == [s[0]] + s[1..];
    forall x | x in s[1..] ensures x != s[0] {
      var i :| 0 <= i < |s[1..]| && s[1..][i] == x;
      assert Less(s[0], s[i + 1]);
    }
  }

  /** Sorting a set of keys has one result, whatever order the keys were visited in. */
  lemma {:induction false} SortedUnique(s: seq<string>, t: seq<string>, keys: set<string>)
    requires Increasing(s) && Increasing(t) && Enumerates(s, keys) && Enumerates(t, keys)
    ensures s == t
  {
    assert t != [] ==> t[0] in t;
    if s != [] {
      SameFirst(s, t, keys);
      DropFirst(s, keys);
      DropFirst(t, keys);
      SortedUnique(s[1..], t[1..], keys - {s[0]});
      assert s == [s[0]] + s[1..] && t == [t[0]] + t[1..];
    }
  }

  method Smallest(keys: set<string>) returns (x: string)
    requires keys != {}
    ensures x in keys && forall y :: y in keys && y != x ==> Less(x, y)
  {
    x :| x in keys;
    var todo := keys - {x};
    while todo != {}
      invariant x in keys && x !in todo && todo <= keys
      invariant forall y :: y in keys && y !in todo && y != x ==> Less(x, y)
      decreases |todo|
    {
      var y :| y in todo;
      LessTotal(x, y);
      if Less(y, x) {
        forall z | z in keys && z !in todo && z != x ensures Less(y, z) { LessTransitive(y, x, z); }
        x := y;
      }
      todo := todo - {y};
    }
  }

  /** sort.Strings of the keys of a map. */
  method SortKeys(keys: set<string>) returns (s: seq<string>)
    ensures Increasing(s) && Enumerates(s, keys)
  {
    s := [];
    var todo := keys;
    while todo != {}
      invariant todo <= keys && Increasing(s) && forall x :: x in s <==> x in keys && x !in todo
      invariant forall x, y :: x in s && y in todo ==> Less(x, y)
      decreases |todo|
    {
      var x := Smallest(todo);
      forall i | 0 <= i < |s| ensures Less(s[i], x) { assert s[i] in s; }
      s, todo := s + [x], todo - {x};
    }
  }
}
