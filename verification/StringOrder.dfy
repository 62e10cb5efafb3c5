/** The order JavaScript sorts strings in: code unit by code unit, a prefix first. */
module StringOrder {

  predicate Less(a: string, b: string)
    decreases |a|
  {
    b != [] && (a == [] || a[0] < b[0] || (a[0] == b[0] && Less(a[1..], b[1..])))
  }

  /** The strings agree up to position n. */
  predicate AgreeTo(a: string, b: string, n: nat) {
    n <= |a| && n <= |b| && a[..n] == b[..n]
  }

  predicate DecidesAt(a: string, b: string, n: nat) {
    AgreeTo(a, b, n) && n < |b| && (n == |a| || (n < |a| && a[n] < b[n]))
  }

  /** The first is a proper prefix of the second, or has the smaller character where they first differ. */
  ghost predicate ComesBefore(a: string, b: string) {
    exists n: nat :: DecidesAt(a, b, n)
  }

  lemma {:induction false} LessIff(a: string, b: string)
    ensures Less(a, b) <==> ComesBefore(a, b)
    decreases |a|
  {
    assert forall n: nat :: n > 0 && AgreeTo(a, b, n) ==> a[0] == a[..n][0] == b[..n][0] == b[0];
    if b != [] && a != [] && a[0] == b[0] {
      LessIff(a[1..], b[1..]);
      if n: nat :| DecidesAt(a[1..], b[1..], n) {
        assert a[..n + 1] == [a[0]] + a[1..][..n] && b[..n + 1] == [b[0]] + b[1..][..n];
        assert DecidesAt(a, b, n + 1);
      }
      if n: nat :| DecidesAt(a, b, n) {
        assert a[1..][..n - 1] == a[..n][1..] && b[1..][..n - 1] == b[..n][1..];
        assert DecidesAt(a[1..], b[1..], n - 1);
      }
    } else if Less(a, b) {
      assert DecidesAt(a, b, 0);
    }
  }

  lemma {:induction false} LessIrreflexive(a: string)
    ensures !Less(a, a)
    decreases |a|
  {
    if a != [] {
      LessIrreflexive(a[1..]);
    }
  }

  lemma {:induction false} LessTransitive(a: string, b: string, c: string)
    requires Less(a, b) && Less(b, c)
    ensures Less(a, c)
    decreases |a|
  {
    if a != [] && a[0] == b[0] == c[0] {
      LessTransitive(a[1..], b[1..], c[1..]);
    }
  }

  lemma {:induction false} LessTotal(a: string, b: string)
    ensures a == b || Less(a, b) || Less(b, a)
    decreases |a|
  {
    if a != [] && b != [] && a[0] == b[0] {
      LessTotal(a[1..], b[1..]);
      assert a[1..] == b[1..] ==> a == [a[0]] + a[1..] == b;
    }
  }

  ghost predicate StrictlySorted(s: seq<string>) {
    forall i, j :: 0 <= i < j < |s| ==> Less(s[i], s[j])
  }

  /** A non-empty finite set of strings has a greatest element. */
  lemma {:induction false} Greatest(s: set<string>) returns (m: string)
    requires s != {}
    ensures m in s && forall x :: x in s && x != m ==> Less(x, m)
    decreases |s|
  {
    m :| m in s;
    if s != {m} {
      var rest := s - {m};
      assert s == rest + {m};
      var n := Greatest(rest);
      LessTotal(m, n);
      if Less(m, n) {
        forall x | x in s && x != n ensures Less(x, n) {
          assert x != m ==> x in rest;
        }
        m := n;
      } else {
        forall x | x in s && x != m ensures Less(x, m) {
          assert x in rest;
          if x != n {
            LessTransitive(x, n, m);
          }
        }
      }
    }
  }

  /** `[...new Set(names)].sort()`: each name once, in increasing order. */
  method SortUnique(names: seq<string>) returns (sorted: seq<string>)
    ensures StrictlySorted(sorted)
    ensures forall x :: x in sorted <==> x in names
  {
    sorted := [];
    for n := 0 to |names|
      invariant StrictlySorted(sorted)
      invariant forall x :: x in sorted <==> x in names[..n]
    {
      assert names[..n + 1] == names[..n] + [names[n]];
      if names[n] !in sorted {
        sorted := InsertSorted(sorted, names[n]);
      }
    }
    assert names[..|names|] == names;
  }

  method InsertSorted(s: seq<string>, x: string) returns (r: seq<string>)
    requires StrictlySorted(s) && x !in s
    ensures StrictlySorted(r)
    ensures forall y :: y in r <==> y in s || y == x
  {
    var i := 0;
    while i < |s| && Less(s[i], x)
      invariant 0 <= i <= |s|
      invariant forall j :: 0 <= j < i ==> Less(s[j], x)
    {
      i := i + 1;
    }
    if i < |s| {
      LessTotal(s[i], x);
      forall j | i < j < |s| ensures Less(x, s[j]) {
        LessTransitive(x, s[i], s[j]);
      }
    }
    r := s[..i] + [x] + s[i..];
    assert forall y :: y in s <==> y in s[..i] || y in s[i..] by {
      assert s == s[..i] + s[i..];
    }
  }
}
