/** Insertion sort on sequences, and what makes it a stable sort: the result is ordered, has
    the same elements, and keeps equivalent elements in their old order. */
module StableSort {

  /** `leq(a, b)` is "a does not compare greater than b"; it is asked of elements of `domain` only. */
  ghost predicate TotalPreorder<T>(leq: (T, T) -> bool, domain: set<T>) {
    && (forall a, b :: a in domain && b in domain ==> leq(a, b) || leq(b, a))
    && (forall a, b, c :: a in domain && b in domain && c in domain && leq(a, b) && leq(b, c) ==> leq(a, c))
  }

  ghost predicate Within<T>(s: seq<T>, domain: set<T>) {
    forall i :: 0 <= i < |s| ==> s[i] in domain
  }

  /** Puts `q` behind the last element that does not compare greater. */
  function Insert<T>(s: seq<T>, q: T, leq: (T, T) -> bool): (r: seq<T>)
    ensures |r| == |s| + 1
  {
    if s == [] then [q]
    else
      var n := |s| - 1;
      if leq(s[n], q) then s + [q] else Insert(s[..n], q, leq) + [s[n]]
  }

  function Sort<T>(s: seq<T>, leq: (T, T) -> bool): (r: seq<T>)
    ensures |r| == |s|
  {
    if s == [] then [] else Insert(Sort(s[..|s| - 1], leq), s[|s| - 1], leq)
  }

  /** Where `Insert` puts the new element. */
  function InsertAt<T>(s: seq<T>, q: T, leq: (T, T) -> bool): (k: nat)
    ensures k <= |s|
    ensures k == 0 || leq(s[k - 1], q)
    ensures forall i :: k <= i < |s| ==> !leq(s[i], q)
  {
    if s == [] then 0
    else if leq(s[|s| - 1], q) then |s|
    else InsertAt(s[..|s| - 1], q, leq)
  }

  lemma {:induction false} InsertSplits<T>(s: seq<T>, q: T, leq: (T, T) -> bool, k: nat)
    requires k <= |s|
    requires k == 0 || leq(s[k - 1], q)
    requires forall i :: k <= i < |s| ==> !leq(s[i], q)
    ensures Insert(s, q, leq) == s[..k] + [q] + s[k..]
  {
    if s == [] {
    } else {
      var n := |s| - 1;
      if k == |s| {
        assert s[..k] == s;
        assert s[..k] + [q] + s[k..] == s + [q];
      } else {
        assert !leq(s[n], q);
        InsertSplits(s[..n], q, leq, k);
        assert s[..n][..k] == s[..k];
        assert s[..n][k..] + [s[n]] == s[k..];
        assert s[..k] + [q] + s[..n][k..] + [s[n]] == s[..k] + [q] + s[k..];
      }
    }
  }

  ghost predicate Ordered<T>(s: seq<T>, leq: (T, T) -> bool) {
    forall i, j :: 0 <= i < j < |s| ==> leq(s[i], s[j])
  }

  lemma InsertOrdered<T>(s: seq<T>, q: T, leq: (T, T) -> bool, domain: set<T>)
    requires TotalPreorder(leq, domain) && Within(s, domain) && q in domain && Ordered(s, leq)
    ensures Ordered(Insert(s, q, leq), leq) && Within(Insert(s, q, leq), domain)
  {
    var k := InsertAt(s, q, leq);
    InsertSplits(s, q, leq, k);
    var r := s[..k] + [q] + s[k..];
    forall i, j | 0 <= i < j < |r|
      ensures leq(r[i], r[j])
    {
      if j == k {
        assert leq(s[i], s[k - 1]) || i == k - 1;
      } else if i == k {
        assert !leq(s[j - 1], q);
      }
    }
  }

  lemma {:induction false} SortOrdered<T>(s: seq<T>, leq: (T, T) -> bool, domain: set<T>)
    requires TotalPreorder(leq, domain) && Within(s, domain)
    ensures Ordered(Sort(s, leq), leq) && Within(Sort(s, leq), domain)
    decreases |s|
  {
    if s == [] {
    } else {
      SortOrdered(s[..|s| - 1], leq, domain);
      InsertOrdered(Sort(s[..|s| - 1], leq), s[|s| - 1], leq, domain);
    }
  }

  lemma {:induction false} InsertPermutes<T>(s: seq<T>, q: T, leq: (T, T) -> bool)
    ensures multiset(Insert(s, q, leq)) == multiset(s) + multiset{q}
    decreases |s|
  {
    if s == [] {
    } else {
      var n := |s| - 1;
      assert s == s[..n] + [s[n]];
      InsertPermutes(s[..n], q, leq);
    }
  }

  lemma {:induction false} SortPermutes<T>(s: seq<T>, leq: (T, T) -> bool)
    ensures multiset(Sort(s, leq)) == multiset(s)
    decreases |s|
  {
    if s == [] {
    } else {
      var n := |s| - 1;
      assert s == s[..n] + [s[n]];
      SortPermutes(s[..n], leq);
      InsertPermutes(Sort(s[..n], leq), s[n], leq);
    }
  }

  lemma SortShort<T>(s: seq<T>, leq: (T, T) -> bool)
    requires |s| <= 1
    ensures Sort(s, leq) == s
  {
    if |s| == 1 {
      assert s[..0] == [];
    }
  }

  lemma SortNext<T>(s: seq<T>, i: nat, leq: (T, T) -> bool)
    requires i < |s|
    ensures Sort(s[..i + 1], leq) == Insert(Sort(s[..i], leq), s[i], leq)
  {
    assert s[..i + 1][..i] == s[..i];
  }

  /** Sorting a prefix keeps the members. */
  lemma SortedPrefixMembers<T>(s: seq<T>, i: nat, leq: (T, T) -> bool)
    requires i <= |s|
    ensures forall x :: x in Sort(s[..i], leq) + s[i..] <==> x in s
  {
    SortPermutes(s[..i], leq);
    var t := Sort(s[..i], leq) + s[i..];
    assert s == s[..i] + s[i..];
    forall x
      ensures x in t <==> x in s
    {
      assert x in t <==> x in multiset(Sort(s[..i], leq)) || x in s[i..];
      assert x in s <==> x in multiset(s[..i]) || x in s[i..];
    }
  }

  predicate Equivalent<T>(a: T, b: T, leq: (T, T) -> bool) {
    leq(a, b) && leq(b, a)
  }

  /** The elements of `s` that are equivalent to `x`, in order. */
  function Class<T>(s: seq<T>, x: T, leq: (T, T) -> bool): seq<T> {
    if s == [] then []
    else Class(s[..|s| - 1], x, leq) + if Equivalent(s[|s| - 1], x, leq) then [s[|s| - 1]] else []
  }

  lemma {:induction false} ClassConcat<T>(s: seq<T>, t: seq<T>, x: T, leq: (T, T) -> bool)
    ensures Class(s + t, x, leq) == Class(s, x, leq) + Class(t, x, leq)
    decreases |t|
  {
    if t == [] {
      assert s + t == s;
    } else {
      var n := |t| - 1;
      assert (s + t)[..|s| + n] == s + t[..n];
      ClassConcat(s, t[..n], x, leq);
    }
  }

  lemma {:induction false} ClassEmpty<T>(s: seq<T>, x: T, leq: (T, T) -> bool)
    requires forall i :: 0 <= i < |s| ==> !leq(s[i], x)
    ensures Class(s, x, leq) == []
  {
    if s == [] {
    } else {
      ClassEmpty(s[..|s| - 1], x, leq);
    }
  }

  lemma ClassOfOne<T>(q: T, x: T, leq: (T, T) -> bool)
    ensures Class([q], x, leq) == if Equivalent(q, x, leq) then [q] else []
  {
    assert [q][..0] == [];
  }

  /** What lies behind the insertion point is not equivalent to anything `q` is equivalent to. */
  lemma BackIsGreater<T>(s: seq<T>, q: T, x: T, leq: (T, T) -> bool, domain: set<T>)
    requires TotalPreorder(leq, domain) && Within(s, domain) && q in domain && x in domain
    requires Equivalent(q, x, leq)
    ensures Class(s[InsertAt(s, q, leq)..], x, leq) == []
  {
    var back := s[InsertAt(s, q, leq)..];
    forall i | 0 <= i < |back|
      ensures !leq(back[i], x)
    {
      assert back[i] == s[InsertAt(s, q, leq) + i];
    }
    ClassEmpty(back, x, leq);
  }

  /** Inserting behind everything not greater adds the new element at the end of its class. */
  lemma InsertStable<T>(s: seq<T>, q: T, x: T, leq: (T, T) -> bool, domain: set<T>)
    requires TotalPreorder(leq, domain) && Within(s, domain) && q in domain && x in domain
    ensures Class(Insert(s, q, leq), x, leq) == Class(s, x, leq) + if Equivalent(q, x, leq) then [q] else []
  {
    hide TotalPreorder, Within, Class;
    var k := InsertAt(s, q, leq);
    InsertSplits(s, q, leq, k);
    var front, back := s[..k], s[k..];
    assert s == front + back;
    ClassConcat(front, back, x, leq);
    ClassConcat(front, [q], x, leq);
    ClassConcat(front + [q], back, x, leq);
    ClassOfOne(q, x, leq);
    if Equivalent(q, x, leq) {
      BackIsGreater(s, q, x, leq, domain);
    }
  }

  lemma {:induction false} SortStable<T>(s: seq<T>, x: T, leq: (T, T) -> bool, domain: set<T>)
    requires TotalPreorder(leq, domain) && Within(s, domain) && x in domain
    ensures Class(Sort(s, leq), x, leq) == Class(s, x, leq)
    decreases |s|
  {
    if s == [] {
    } else {
      var n := |s| - 1;
      SortStable(s[..n], x, leq, domain);
      SortOrdered(s[..n], leq, domain);
      InsertStable(Sort(s[..n], leq), s[n], x, leq, domain);
    }
  }
}
