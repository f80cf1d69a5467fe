/** Python's order on strings, and sorting a set of them: what `sorted(...)` returns is unique. */
module StringOrder {

  predicate Less(a: string, b: string) {
    b != "" && (a == "" || a[0] < b[0] || (a[0] == b[0] && Less(a[1..], b[1..])))
  }

  lemma {:induction false} LessTrichotomy(a: string, b: string)
    ensures Less(a, b) || a == b || Less(b, a)
    ensures !(Less(a, b) && a == b) && !(Less(a, b) && Less(b, a))
  {
    if a != "" && b != "" && a[0] == b[0] {
      LessTrichotomy(a[1..], b[1..]);
      assert a == [a[0]] + a[1..] && b == [b[0]] + b[1..];
    }
  }

  lemma {:induction false} LessTransitive(a: string, b: string, c: string)
    requires Less(a, b) && Less(b, c)
    ensures Less(a, c)
  {
    if a != "" && a[0] == b[0] == c[0] {
      LessTransitive(a[1..], b[1..], c[1..]);
    }
  }

  /** The strings agree in their first `i` characters; there the first one ends, or has the smaller character. */
  predicate DiffersAt(a: string, b: string, i: nat) {
    i <= |a| && i < |b| && a[..i] == b[..i] && (i == |a| || a[i] < b[i])
  }

  lemma FirstAgrees(a: string, b: string, i: nat)
    requires DiffersAt(a, b, i) && i > 0
    ensures a != "" && b != "" && a[0] == b[0] && DiffersAt(a[1..], b[1..], i - 1)
  {
    assert a[0] == a[..i][0] && b[0] == b[..i][0];
    assert a[1..][..i - 1] == a[..i][1..] && b[1..][..i - 1] == b[..i][1..];
  }

  /** One string comes before another if and only if the first difference says so. */
  lemma {:induction false} LessAtFirstDifference(a: string, b: string)
    ensures Less(a, b) <==> exists i: nat :: DiffersAt(a, b, i)
  {
    forall i: nat | DiffersAt(a, b, i) && i > 0
      ensures a != "" && b != "" && a[0] == b[0] && DiffersAt(a[1..], b[1..], i - 1)
    {
      FirstAgrees(a, b, i);
    }
    if a != "" && b != "" && a[0] == b[0] {
      LessAtFirstDifference(a[1..], b[1..]);
      if Less(a, b) {
        var i: nat :| DiffersAt(a[1..], b[1..], i);
        assert a[..i + 1] == [a[0]] + a[1..][..i] && b[..i + 1] == [b[0]] + b[1..][..i];
        assert DiffersAt(a, b, i + 1);
      }
    } else if Less(a, b) {
      assert DiffersAt(a, b, 0);
    }
  }

  ghost predicate Sorted(s: seq<string>) {
    forall i, j :: 0 <= i < j < |s| ==> Less(s[i], s[j])
  }

  function Elements<T>(s: seq<T>): set<T> {
    set x | x in s
  }

  lemma NoElements(s: seq<string>)
    ensures Elements(s) == {} <==> s == []
  {
    if s != [] { assert s[0] in Elements(s); }
  }

  /** A strictly sorted list is determined by its elements. */
  lemma {:induction false} SortedUnique(s: seq<string>, t: seq<string>)
    requires Sorted(s) && Sorted(t) && Elements(s) == Elements(t)
    ensures s == t
  {
    if s == [] || t == [] {
      NoElements(s);
      NoElements(t);
    } else {
      assert s[0] in Elements(t) && t[0] in Elements(s);
      var i :| 0 <= i < |t| && t[i] == s[0];
      var j :| 0 <= j < |s| && s[j] == t[0];
      if s[0] != t[0] {
        assert Less(t[0], t[i]) && Less(s[0], s[j]);
        LessTrichotomy(s[0], t[0]);
      }
      TailElements(s);
      TailElements(t);
      SortedUnique(s[1..], t[1..]);
    }
  }

  lemma TailElements(s: seq<string>)
    requires Sorted(s) && s != []
    ensures Sorted(s[1..]) && Elements(s[1..]) == Elements(s) - {s[0]}
  {
    forall x | x in Elements(s) - {s[0]} ensures x in Elements(s[1..]) {
      var i :| 0 <= i < |s| && s[i] == x;
      assert s[1..][i - 1] == x;
    }
    forall x | x in Elements(s[1..]) ensures x != s[0] {
      var i :| 0 <= i < |s| - 1 && s[1..][i] == x;
      assert Less(s[0], s[i + 1]);
      LessTrichotomy(x, x);
    }
  }

  lemma ElementsSnoc<T>(s: seq<T>, x: T)
    ensures Elements(s + [x]) == Elements(s) + {x}
  {
  }

  /** `sorted(s)` for a set of strings. */
  method Sort(s: set<string>) returns (r: seq<string>)
    ensures Sorted(r) && Elements(r) == s
  {
    r := [];
    var rest := s;
    while rest != {}
      invariant rest <= s && Sorted(r) && Elements(r) == s - rest
      decreases |rest|
    {
      var x :| x in rest;
      assert x !in Elements(r);
      r := Insert(r, x);
      rest := rest - {x};
    }
  }

  /** The members of a set in whatever order iteration gives them. */
  method Listed(s: set<string>) returns (r: seq<string>)
    ensures Elements(r) == s
  {
    r := [];
    var rest := s;
    while rest != {}
      invariant rest <= s && Elements(r) == s - rest
      decreases |rest|
    {
      var x :| x in rest;
      ElementsSnoc(r, x);
      r := r + [x];
      rest := rest - {x};
    }
  }

  method Insert(s: seq<string>, x: string) returns (r: seq<string>)
    requires Sorted(s) && x !in Elements(s)
    ensures Sorted(r) && Elements(r) == Elements(s) + {x}
  {
    var k := 0;
    while k < |s| && Less(s[k], x)
      invariant 0 <= k <= |s|
      invariant forall i :: 0 <= i < k ==> Less(s[i], x)
    {
      k := k + 1;
    }
    r := s[..k] + [x] + s[k..];
    InsertSorted(s, k, x);
    assert forall y :: y in r <==> y in s || y == x by {
      assert s == s[..k] + s[k..];
    }
  }

  lemma InsertSorted(s: seq<string>, k: nat, x: string)
    requires Sorted(s) && x !in s && k <= |s|
    requires forall i :: 0 <= i < k ==> Less(s[i], x)
    requires k < |s| ==> !Less(s[k], x)
    ensures Sorted(s[..k] + [x] + s[k..])
  {
    var r := s[..k] + [x] + s[k..];
    forall j | k <= j < |s| ensures Less(x, s[j]) {
      LessTrichotomy(s[k], x);
      if j > k { LessTransitive(x, s[k], s[j]); }
    }
    forall i, j | 0 <= i < j < |r| ensures Less(r[i], r[j]) {
      var a := if i < k then i else i - 1;
      var b := if j < k then j else j - 1;
      assert i != k ==> r[i] == s[a];
      assert j != k ==> r[j] == s[b];
    }
  }

  /** Every nonempty set of strings has a least member. */
  lemma {:induction false} LeastExists(s: set<string>) returns (least: string)
    requires s != {}
    ensures least in s && forall x :: x in s ==> !Less(x, least)
    decreases |s|
  {
    var y :| y in s;
    LessTrichotomy(y, y);
    if s == {y} {
      least := y;
    } else {
      var rest := s - {y};
      assert s == rest + {y};
      least := LeastExists(rest);
      LessTrichotomy(y, least);
      if Less(y, least) {
        forall x | x in s ensures !Less(x, y) {
          if x != y && Less(x, y) { LessTransitive(x, y, least); }
        }
        least := y;
      }
    }
  }

  ghost function Least(s: set<string>): (least: string)
    requires s != {}
    ensures least in s && forall x :: x in s ==> !Less(x, least)
  {
    LeastIsThere(s);
    var least :| least in s && forall x :: x in s ==> !Less(x, least);
    least
  }

  lemma LeastIsThere(s: set<string>)
    requires s != {}
    ensures exists least :: least in s && forall x :: x in s ==> !Less(x, least)
  {
    var least := LeastExists(s);
  }

  lemma LeastUnique(s: set<string>, least: string)
    requires least in s && forall x :: x in s ==> !Less(x, least)
    ensures Least(s) == least
  {
    LessTrichotomy(least, Least(s));
  }
}
