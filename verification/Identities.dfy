/**
 Comparison of a caller's identities with the URIs of its CSR (pkg/server/auth.go:127-152): both lists
 are copied, sorted and compared position by position.
 */
module Identities {
  // ----- The order of Go strings

  predicate Leq(a: string, b: string) {
    a == [] || (b != [] && (a[0] < b[0] || (a[0] == b[0] && Leq(a[1..], b[1..]))))
  }

  lemma {:induction false} LeqTotal(a: string, b: string)
    ensures Leq(a, b) || Leq(b, a)
  {
    if a != [] && b != [] {
      LeqTotal(a[1..], b[1..]);
    }
  }

  lemma {:induction false} LeqAntisymmetric(a: string, b: string)
    requires Leq(a, b) && Leq(b, a)
    ensures a == b
  {
    if a != [] && b != [] {
      LeqAntisymmetric(a[1..], b[1..]);
      assert a == [a[0]] + a[1..] && b == [b[0]] + b[1..];
    }
  }

  lemma {:induction false} LeqTransitive(a: string, b: string, c: string)
    requires Leq(a, b) && Leq(b, c)
    ensures Leq(a, c)
  {
    if a != [] && a[0] == b[0] && b[0] == c[0] {
      LeqTransitive(a[1..], b[1..], c[1..]);
    }
  }

  ghost predicate Sorted(s: seq<string>) {
    forall i, j :: 0 <= i < j < |s| ==> Leq(s[i], s[j])
  }

  // ----- Sorting by a key

  function Keys<T>(key: T -> string, s: seq<T>): (r: seq<string>)
    ensures |r| == |s|
    ensures forall i :: 0 <= i < |s| ==> r[i] == key(s[i])
  {
    seq(|s|, i requires 0 <= i < |s| => key(s[i]))
  }

  lemma KeysInsert<T>(key: T -> string, s: seq<T>, k: nat, x: T)
    requires k <= |s|
    ensures Keys(key, s[..k] + [x] + s[k..]) == Keys(key, s)[..k] + [key(x)] + Keys(key, s)[k..]
  {
  }

  /** The position of x among sorted keys: after every smaller one. */
  method Position<T>(key: T -> string, s: seq<T>, x: T) returns (k: nat)
    requires Sorted(Keys(key, s))
    ensures k <= |s|
    ensures forall i :: 0 <= i < k ==> Leq(key(s[i]), key(x))
    ensures forall i :: k <= i < |s| ==> Leq(key(x), key(s[i]))
  {
    k := |s|;
    while k > 0 && !Leq(key(s[k - 1]), key(x))
      invariant k <= |s|
      invariant forall i :: k <= i < |s| ==> Leq(key(x), key(s[i]))
    {
      LeqTotal(key(s[k - 1]), key(x));
      k := k - 1;
    }
    forall i | 0 <= i < k
      ensures Leq(key(s[i]), key(x))
    {
      if i < k - 1 {
        assert Leq(Keys(key, s)[i], Keys(key, s)[k - 1]);
        LeqTransitive(key(s[i]), key(s[k - 1]), key(x));
      }
    }
  }

  /** A stable sort; equal keys keep their order because each element goes after them. */
  method SortBy<T>(key: T -> string, a: seq<T>) returns (s: seq<T>)
    ensures |s| == |a|
    ensures Sorted(Keys(key, s))
    ensures multiset(Keys(key, s)) == multiset(Keys(key, a))
  {
    s := [];
    for i := 0 to |a|
      invariant |s| == i
      invariant Sorted(Keys(key, s))
      invariant multiset(Keys(key, s)) == multiset(Keys(key, a)[..i])
    {
      var k := Position(key, s, a[i]);
      KeysInsert(key, s, k, a[i]);
      InsertSorted(Keys(key, s), k, key(a[i]));
      s := s[..k] + [a[i]] + s[k..];
      assert Keys(key, a)[..i + 1] == Keys(key, a)[..i] + [key(a[i])];
    }
    assert Keys(key, a)[..|a|] == Keys(key, a);
  }

  lemma InsertSorted(s: seq<string>, k: nat, x: string)
    requires Sorted(s) && k <= |s|
    requires forall i :: 0 <= i < k ==> Leq(s[i], x)
    requires forall i :: k <= i < |s| ==> Leq(x, s[i])
    ensures Sorted(s[..k] + [x] + s[k..])
    ensures multiset(s[..k] + [x] + s[k..]) == multiset(s) + multiset{x}
  {
    assert s == s[..k] + s[k..];
  }

  /** The heads of sorted lists with the same elements are equal. */
  lemma SameHead(a: seq<string>, b: seq<string>)
    requires Sorted(a) && Sorted(b) && multiset(a) == multiset(b) && a != [] && b != []
    ensures a[0] == b[0]
  {
    assert a[0] in multiset(b) && b[0] in multiset(a);
    var i :| 0 <= i < |b| && b[i] == a[0];
    var j :| 0 <= j < |a| && a[j] == b[0];
    LeqAtOrAfter(a, j);
    LeqAtOrAfter(b, i);
    LeqAntisymmetric(a[0], b[0]);
  }

  lemma TailElements(s: seq<string>)
    requires s != []
    ensures multiset(s[1..]) == multiset(s) - multiset{s[0]}
  {
    assert s == [s[0]] + s[1..];
  }

  /** Sorted lists with the same elements are the same list. */
  lemma {:induction false} SortedUnique(a: seq<string>, b: seq<string>)
    requires Sorted(a) && Sorted(b) && multiset(a) == multiset(b)
    ensures a == b
    decreases |a|
  {
    assert |multiset(a)| == |a| && |multiset(b)| == |b|;
    if a == [] {
    } else {
      SameHead(a, b);
      TailElements(a);
      TailElements(b);
      SortedUnique(a[1..], b[1..]);
      assert a == [a[0]] + a[1..] && b == [b[0]] + b[1..];
    }
  }

  lemma LeqAtOrAfter(s: seq<string>, i: nat)
    requires Sorted(s) && i < |s|
    ensures Leq(s[0], s[i])
  {
    LeqTotal(s[0], s[0]);
  }

  datatype Url = Url(scheme: string, host: string, path: string)

  /** True if and only if the identities and the rendered URIs are equal as multisets. */
  method IdentitiesMatch(render: Url -> string, a: seq<string>, b: seq<Url>) returns (same: bool)
    ensures same <==> multiset(a) == multiset(Keys(render, b))
  {
    if |a| != |b| {
      assert |multiset(a)| != |multiset(Keys(render, b))|;
      return false;
    }
    var aa := SortBy((s: string) => s, a);
    var bb := SortBy(render, b);
    assert Keys((s: string) => s, aa) == aa && Keys((s: string) => s, a) == a;
    if multiset(a) == multiset(Keys(render, b)) {
      SortedUnique(aa, Keys(render, bb));
    }
    for i := 0 to |aa|
      invariant aa[..i] == Keys(render, bb)[..i]
    {
      if render(bb[i]) != aa[i] {
        return false;
      }
    }
    assert aa == Keys(render, bb) by {
      assert aa[..|aa|] == aa;
    }
    return true;
  }
}
