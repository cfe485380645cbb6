/** Sequence operations shared by the grouping and the report: Ruby's Array#select, and what
    "keeps the input order" means. */
module Seqs {

  /** The elements of s that satisfy p, in their order in s (Array#select). */
  function Select<T>(s: seq<T>, p: T -> bool): (r: seq<T>)
    ensures |r| <= |s|
  {
    if s == [] then []
    else Select(s[..|s| - 1], p) + (if p(s[|s| - 1]) then [s[|s| - 1]] else [])
  }

  /** idx picks, in strictly increasing positions of b, the elements of a. */
  ghost predicate Embeds<T>(idx: seq<int>, a: seq<T>, b: seq<T>)
  {
    && |idx| == |a|
    && (forall k :: 0 <= k < |idx| ==> 0 <= idx[k] < |b| && a[k] == b[idx[k]])
    && (forall k, l :: 0 <= k < l < |idx| ==> idx[k] < idx[l])
  }

  /** a is b with some elements left out and the rest kept in their order. */
  ghost predicate SubsequenceOf<T>(a: seq<T>, b: seq<T>)
  {
    exists idx :: Embeds(idx, a, b)
  }

  /** The elements of s in the opposite order. */
  function Reverse<T>(s: seq<T>): (r: seq<T>)
  {
    if s == [] then [] else Reverse(s[1..]) + [s[0]]
  }

  lemma AppendAssoc<T>(a: seq<T>, b: seq<T>, c: seq<T>)
    ensures (a + b) + c == a + (b + c)
  {
  }

  lemma SelectSnoc<T>(s: seq<T>, x: T, p: T -> bool)
    ensures Select(s + [x], p) == Select(s, p) + (if p(x) then [x] else [])
  {
    assert (s + [x])[..|s|] == s;
  }

  /** Selecting keeps exactly the elements that satisfy p, each as often as it occurs in s. */
  lemma {:induction false} SelectMembers<T>(s: seq<T>, p: T -> bool)
    ensures forall x :: x in Select(s, p) <==> x in s && p(x)
    ensures forall x :: multiset(Select(s, p))[x] == if p(x) then multiset(s)[x] else 0
  {
    if s != [] {
      var init, last := s[..|s| - 1], s[|s| - 1];
      SelectMembers(init, p);
      assert s == init + [last];
      assert multiset(s) == multiset(init) + multiset{last};
      assert multiset(Select(s, p)) == multiset(Select(init, p)) + multiset(if p(last) then [last] else []);
    }
  }

  /** Selecting keeps the order of s. */
  lemma {:induction false} SelectSubsequence<T>(s: seq<T>, p: T -> bool)
    ensures SubsequenceOf(Select(s, p), s)
  {
    if s == [] {
      assert Embeds([], Select(s, p), s);
    } else {
      var init := s[..|s| - 1];
      SelectSubsequence(init, p);
      var idx :| Embeds(idx, Select(init, p), init);
      if p(s[|s| - 1]) {
        assert Embeds(idx + [|s| - 1], Select(s, p), s);
      } else {
        assert Embeds(idx, Select(s, p), s);
      }
    }
  }

  /** Two predicates that agree on the elements of s select the same elements. */
  lemma {:induction false} SelectAgree<T>(s: seq<T>, p: T -> bool, q: T -> bool)
    requires forall x :: x in s ==> p(x) == q(x)
    ensures Select(s, p) == Select(s, q)
  {
    if s != [] {
      SelectAgree(s[..|s| - 1], p, q);
    }
  }

  /** A predicate no element satisfies selects nothing. */
  lemma {:induction false} SelectNone<T>(s: seq<T>, p: T -> bool)
    requires forall x :: x in s ==> !p(x)
    ensures Select(s, p) == []
  {
    if s != [] {
      SelectNone(s[..|s| - 1], p);
    }
  }

  /** Selecting with "p or q", for p and q that never both hold, selects the p-elements and the
      q-elements and nothing else, each as often as it occurs in s. */
  lemma {:induction false} SelectSplit<T>(s: seq<T>, p: T -> bool, q: T -> bool, pq: T -> bool)
    requires forall x :: x in s ==> (pq(x) <==> p(x) || q(x))
    requires forall x :: x in s && p(x) ==> !q(x)
    ensures multiset(Select(s, pq)) == multiset(Select(s, p)) + multiset(Select(s, q))
  {
    if s != [] {
      SelectSplit(s[..|s| - 1], p, q, pq);
    }
  }

  /** Reversing keeps every element, as often as it occurs. */
  lemma {:induction false} ReversePermutes<T>(s: seq<T>)
    ensures |Reverse(s)| == |s|
    ensures multiset(Reverse(s)) == multiset(s)
  {
    if s != [] {
      ReversePermutes(s[1..]);
      assert s == [s[0]] + s[1..];
    }
  }

  /** The concatenation of f(x) over the elements x of s, in order. */
  function Flatten<T, U>(s: seq<T>, f: T -> seq<U>): seq<U>
  {
    if s == [] then [] else Flatten(s[..|s| - 1], f) + f(s[|s| - 1])
  }

  lemma FlattenSnoc<T, U>(s: seq<T>, x: T, f: T -> seq<U>)
    ensures Flatten(s + [x], f) == Flatten(s, f) + f(x)
  {
    assert (s + [x])[..|s|] == s;
  }

  lemma FlattenPrefix<T, U>(s: seq<T>, i: nat, f: T -> seq<U>)
    requires i < |s|
    ensures Flatten(s[..i + 1], f) == Flatten(s[..i], f) + f(s[i])
  {
    assert s[..i + 1] == s[..i] + [s[i]];
    FlattenSnoc(s[..i], s[i], f);
  }

  /** Elements that contribute nothing can be filtered out before flattening. */
  lemma {:induction false} FlattenSkipsEmpty<T, U>(s: seq<T>, f: T -> seq<U>, p: T -> bool)
    requires forall x :: !p(x) ==> f(x) == []
    ensures Flatten(s, f) == Flatten(Select(s, p), f)
  {
    if s != [] {
      var init, last := s[..|s| - 1], s[|s| - 1];
      FlattenSkipsEmpty(init, f, p);
      assert s == init + [last];
      SelectSnoc(init, last, p);
      if p(last) {
        FlattenSnoc(Select(init, p), last, f);
      } else {
        FlattenSnoc(init, last, f);
        assert f(last) == [];
        assert Flatten(init, f) + f(last) == Flatten(init, f);
        assert Select(s, p) == Select(init, p) + [] == Select(init, p);
      }
    }
  }
}
