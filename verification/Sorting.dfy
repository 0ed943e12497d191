// The in-place insertion sort on strings, and the fact that makes it a source
// of determinism: a set of strings has exactly one sorted listing.
module Sorting {

  // Lexicographic order on code points, which is Go's byte order on UTF-8 text.
  predicate StrLe(a: string, b: string) {
    if a == "" then true
    else if b == "" then false
    else a[0] < b[0] || (a[0] == b[0] && StrLe(a[1..], b[1..]))
  }

  predicate StrLt(a: string, b: string) {
    StrLe(a, b) && a != b
  }

  lemma {:induction false} StrLeTotal(a: string, b: string)
    ensures StrLe(a, b) || StrLe(b, a)
  {
    if a != "" && b != "" && a[0] == b[0] {
      StrLeTotal(a[1..], b[1..]);
    }
  }

  lemma {:induction false} StrLeAntisymmetric(a: string, b: string)
    requires StrLe(a, b) && StrLe(b, a)
    ensures a == b
  {
    if a != "" && b != "" {
      StrLeAntisymmetric(a[1..], b[1..]);
      assert a == [a[0]] + a[1..] && b == [b[0]] + b[1..];
    }
  }

  lemma {:induction false} StrLeTransitive(a: string, b: string, c: string)
    requires StrLe(a, b) && StrLe(b, c)
    ensures StrLe(a, c)
  {
    if a != "" && a[0] == b[0] == c[0] {
      StrLeTransitive(a[1..], b[1..], c[1..]);
    }
  }

  lemma {:induction false} StrLeReflexive(a: string)
    ensures StrLe(a, a)
  {
    if a != "" {
      StrLeReflexive(a[1..]);
    }
  }

  ghost predicate Sorted(s: seq<string>) {
    forall i, j :: 0 <= i < j < |s| ==> StrLe(s[i], s[j])
  }

  ghost predicate StrictlySorted(s: seq<string>) {
    forall i, j :: 0 <= i < j < |s| ==> StrLt(s[i], s[j])
  }

  ghost predicate NoDup<T>(s: seq<T>) {
    forall i, j :: 0 <= i < j < |s| ==> s[i] != s[j]
  }

  lemma AppendNoDup<T>(s: seq<T>, x: T)
    requires NoDup(s) && x !in s
    ensures NoDup(s + [x])
  {
  }

  ghost function Elems<T>(s: seq<T>): set<T> {
    set x | x in s
  }

  // What one pass of the inner loop does: the element at i moves down to j + 1.
  lemma InsertKeepsElements(pre: seq<string>, post: seq<string>, j: int, i: int)
    requires -1 <= j < i < |pre| == |post|
    requires forall k :: 0 <= k <= j || i < k < |pre| ==> post[k] == pre[k]
    requires forall k :: j + 1 < k <= i ==> post[k] == pre[k - 1]
    requires post[j + 1] == pre[i]
    ensures multiset(post) == multiset(pre)
  {
    var a, b, c := pre[..j + 1], pre[j + 1..i], pre[i + 1..];
    assert pre == a + b + [pre[i]] + c;
    assert post == a + [pre[i]] + b + c;
  }

  method SortStrings(s: array<string>)
    modifies s
    ensures Sorted(s[..])
    ensures multiset(s[..]) == old(multiset(s[..]))
  {
    var i := 1;
    while i < s.Length
      invariant 1 <= i <= s.Length || s.Length <= 1 == i
      invariant Sorted(s[..if i <= s.Length then i else s.Length])
      invariant multiset(s[..]) == old(multiset(s[..]))
    {
      Insert(s, i);
      i := i + 1;
    }
    assert s[..s.Length] == s[..];
  }

  // One turn of the outer loop: s[i] moves down to its place in the sorted part
  // before it.
  method Insert(s: array<string>, i: int)
    requires 0 <= i < s.Length && Sorted(s[..i])
    modifies s
    ensures Sorted(s[..i + 1])
    ensures multiset(s[..]) == old(multiset(s[..]))
  {
    ghost var pre := s[..];
    var key := s[i];
    assert pre[..i] == s[..i];
    var j := ShiftGreater(s, i, key);
    s[j + 1] := key;
    ghost var post := s[..];
    assert forall k :: j + 1 < k <= i ==> post[k] == pre[k - 1];
    InsertKeepsElements(pre, post, j, i);
    SortedAfterInsert(pre, post, j, i);
    assert s[..i + 1] == post[..i + 1];
  }

  // The inner loop: elements greater than the key move up by one.
  method ShiftGreater(s: array<string>, i: int, key: string) returns (j: int)
    requires 0 <= i < s.Length
    modifies s
    ensures -1 <= j < i && (j >= 0 ==> !StrLt(key, s[j]))
    ensures forall k :: 0 <= k <= j || i < k < s.Length ==> s[k] == old(s[k])
    ensures forall k :: j + 1 < k <= i ==> s[k] == old(s[k - 1]) && StrLe(key, s[k])
  {
    j := i - 1;
    while j >= 0 && StrLt(key, s[j])
      invariant -1 <= j < i
      invariant forall k :: 0 <= k <= j || i < k < s.Length ==> s[k] == old(s[k])
      invariant forall k :: j + 1 < k <= i ==> s[k] == old(s[k - 1]) && StrLe(key, s[k])
    {
      s[j + 1] := s[j];
      j := j - 1;
    }
  }

  lemma SortedAfterInsert(pre: seq<string>, post: seq<string>, j: int, i: int)
    requires -1 <= j < i < |pre| == |post|
    requires Sorted(pre[..i])
    requires forall k :: 0 <= k <= j ==> post[k] == pre[k]
    requires forall k :: j + 1 < k <= i ==> post[k] == pre[k - 1] && StrLe(pre[i], post[k])
    requires post[j + 1] == pre[i]
    requires j >= 0 ==> !StrLt(pre[i], pre[j])
    ensures Sorted(post[..i + 1])
  {
    forall p, q | 0 <= p < q <= i
      ensures StrLe(post[p], post[q])
    {
      if q <= j {
        assert pre[..i][p] == post[p] && pre[..i][q] == post[q];
      } else if p <= j {
        assert pre[..i][p] == post[p] && pre[..i][j] == pre[j];
        StrLeTotal(pre[j], pre[i]);
        StrLeReflexive(pre[j]);
        if q == j + 1 {
          if p < j {
            StrLeTransitive(post[p], pre[j], pre[i]);
          }
        } else {
          assert pre[..i][q - 1] == post[q];
        }
      } else if p > j + 1 {
        assert pre[..i][p - 1] == post[p] && pre[..i][q - 1] == post[q];
      }
    }
  }

  lemma LeastIsFirst(a: seq<string>, b: seq<string>)
    requires Sorted(a) && a != [] && multiset(a) == multiset(b)
    ensures b != [] && forall i :: 0 <= i < |b| ==> StrLe(a[0], b[i])
  {
    assert a[0] in multiset(b);
    StrLeReflexive(a[0]);
    forall i | 0 <= i < |b| ensures StrLe(a[0], b[i]) {
      assert b[i] in multiset(a);
    }
  }

  lemma TailMultiset(a: seq<string>)
    requires a != []
    ensures multiset(a[1..]) == multiset(a) - multiset{a[0]}
  {
    assert a == [a[0]] + a[1..];
  }

  // Two sorted listings of the same elements are the same listing.
  lemma {:induction false} SortedIsUnique(a: seq<string>, b: seq<string>)
    requires Sorted(a) && Sorted(b) && multiset(a) == multiset(b)
    ensures a == b
  {
    if a == [] {
      assert |multiset(b)| == 0;
    } else {
      LeastIsFirst(a, b);
      LeastIsFirst(b, a);
      StrLeAntisymmetric(a[0], b[0]);
      TailMultiset(a);
      TailMultiset(b);
      SortedIsUnique(a[1..], b[1..]);
      assert a == [a[0]] + a[1..] && b == [b[0]] + b[1..];
    }
  }

  lemma {:induction false} MultisetOfNoDup<T>(s: seq<T>, t: seq<T>)
    requires NoDup(s) && multiset(s) == multiset(t)
    ensures NoDup(t) && Elems(s) == Elems(t)
  {
    forall x ensures x in s <==> x in t {
      assert x in multiset(s) <==> x in multiset(t);
    }
    forall i, j | 0 <= i < j < |t|
      ensures t[i] != t[j]
    {
      if t[i] == t[j] {
        var rest := t[..i] + t[i + 1..];
        assert t == t[..i] + [t[i]] + t[i + 1..];
        assert multiset(t) == multiset(rest) + multiset{t[i]};
        assert rest[j - 1] == t[j];
        assert t[i] in multiset(rest);
        assert multiset(s)[t[i]] >= 2;
        NoDupCountsOnce(s, t[i]);
      }
    }
  }

  lemma {:induction false} NoDupCountsOnce<T>(s: seq<T>, x: T)
    requires NoDup(s)
    ensures multiset(s)[x] <= 1
  {
    if s != [] {
      NoDupCountsOnce(s[1..], x);
      assert s == [s[0]] + s[1..];
      assert s[0] == x ==> x !in s[1..];
    }
  }

  // The sorted listing of a set, as the specification of what sorting a
  // duplicate-free slice yields.
  ghost predicate ListsSorted(s: seq<string>, xs: set<string>) {
    StrictlySorted(s) && Elems(s) == xs
  }

  lemma NoElems<T>(s: seq<T>)
    ensures Elems(s) == {} <==> s == []
  {
    if s != [] {
      assert s[0] in Elems(s);
    }
  }

  lemma {:induction false} ListsSortedIsUnique(a: seq<string>, b: seq<string>, xs: set<string>)
    requires ListsSorted(a, xs) && ListsSorted(b, xs)
    ensures a == b
  {
    if a == [] {
      NoElems(a);
      NoElems(b);
    } else {
      assert a[0] in Elems(a) && a[0] in Elems(b);
      assert b[0] in Elems(b) && b[0] in Elems(a);
      var i :| 0 <= i < |b| && b[i] == a[0];
      var k :| 0 <= k < |a| && a[k] == b[0];
      if i > 0 && k > 0 {
        StrLeAntisymmetric(a[0], b[0]);
      }
      assert a[0] == b[0];
      forall x ensures x in a[1..] <==> x in b[1..] {
        assert x in a[1..] <==> x in a && x != a[0] by {
          assert a == [a[0]] + a[1..];
        }
        assert x in b[1..] <==> x in b && x != b[0] by {
          assert b == [b[0]] + b[1..];
        }
        assert x in a <==> x in xs;
        assert x in b <==> x in xs;
      }
      ListsSortedIsUnique(a[1..], b[1..], Elems(a[1..]));
      assert a == [a[0]] + a[1..] && b == [b[0]] + b[1..];
    }
  }

  // Such a listing exists for every finite set.
  ghost function SortedListing(xs: set<string>): (s: seq<string>)
    ensures ListsSorted(s, xs)
  {
    SortedListingExists(xs);
    var s :| ListsSorted(s, xs);
    s
  }

  lemma {:induction false} SortedListingExists(xs: set<string>)
    ensures exists s :: ListsSorted(s, xs)
  {
    if xs == {} {
      assert ListsSorted([], xs);
    } else {
      var m := LeastOf(xs);
      SortedListingExists(xs - {m});
      var s :| ListsSorted(s, xs - {m});
      var t := [m] + s;
      assert forall x :: x in t <==> x == m || x in s;
      forall x ensures x in s <==> x in xs && x != m {
        assert x in s <==> x in Elems(s);
      }
      assert Elems(t) == xs;
      forall i, j | 0 <= i < j < |t| ensures StrLt(t[i], t[j]) {
        assert t[j] == s[j - 1] && s[j - 1] in Elems(s);
      }
      assert ListsSorted(t, xs);
    }
  }

  lemma {:induction false} LeastOf(xs: set<string>) returns (m: string)
    requires xs != {}
    ensures m in xs && forall x :: x in xs ==> StrLe(m, x)
  {
    var y :| y in xs;
    if xs == {y} {
      m := y;
      StrLeReflexive(y);
    } else {
      var n := LeastOf(xs - {y});
      StrLeTotal(y, n);
      StrLeReflexive(y);
      m := if StrLe(y, n) then y else n;
      forall x | x in xs ensures StrLe(m, x) {
        if x != y {
          StrLeTransitive(m, n, x);
        }
      }
    }
  }

  // Sorting a duplicate-free sequence gives the sorted listing of its elements.
  lemma SortingIsListing(before: seq<string>, after: seq<string>)
    requires NoDup(before) && Sorted(after) && multiset(after) == multiset(before)
    ensures after == SortedListing(Elems(before))
  {
    MultisetOfNoDup(before, after);
    forall i, j | 0 <= i < j < |after| ensures StrLt(after[i], after[j]) {}
    ListsSortedIsUnique(after, SortedListing(Elems(before)), Elems(before));
  }

  // Sorts a copy, as the callers do with the slices they build.
  method SortedCopy(xs: seq<string>) returns (r: seq<string>)
    ensures Sorted(r) && multiset(r) == multiset(xs)
  {
    var a := new string[|xs|](i requires 0 <= i < |xs| => xs[i]);
    assert a[..] == xs;
    SortStrings(a);
    r := a[..];
  }
}
