/** `Array.prototype.filter` over immutable sequences, and the positions it
    keeps. The dashboard filters twice (valid spreadsheet rows; contacts
    matching the mode filter and the search term), and both uses are stated
    through the lemmas here: the result is the kept elements, in their
    original order, and nothing else. */
module Selection {

  /** `s.filter(p)`. */
  function Filter<T>(s: seq<T>, p: T -> bool): (r: seq<T>)
    ensures |r| <= |s|
    ensures forall k :: 0 <= k < |r| ==> p(r[k])
  {
    if s == [] then []
    else if p(s[0]) then [s[0]] + Filter(s[1..], p)
    else Filter(s[1..], p)
  }

  /** What `s.filter(p)` holds: elements of `s` that satisfy `p`, and every
      such element. */
  lemma {:induction false} FilterMembers<T>(s: seq<T>, p: T -> bool)
    ensures forall k :: 0 <= k < |Filter(s, p)| ==> Filter(s, p)[k] in s
    ensures forall i :: 0 <= i < |s| && p(s[i]) ==> s[i] in Filter(s, p)
  {
    if s != [] {
      FilterMembers(s[1..], p);
      assert forall i :: 1 <= i < |s| ==> s[i] == s[1..][i - 1];
    }
  }

  /** The positions of `s` at or after `from` whose element satisfies `p`,
      in increasing order. */
  function KeptFrom<T>(s: seq<T>, p: T -> bool, from: nat): (idx: seq<nat>)
    requires from <= |s|
    ensures forall k :: 0 <= k < |idx| ==> from <= idx[k] < |s| && p(s[idx[k]])
    ensures forall k, l :: 0 <= k < l < |idx| ==> idx[k] < idx[l]
    ensures forall i :: from <= i < |s| && p(s[i]) ==> i in idx
    decreases |s| - from
  {
    if from == |s| then []
    else if p(s[from]) then [from] + KeptFrom(s, p, from + 1)
    else KeptFrom(s, p, from + 1)
  }

  /** The positions of `s` that `s.filter(p)` keeps. */
  function KeptIndices<T>(s: seq<T>, p: T -> bool): (idx: seq<nat>)
    ensures forall k :: 0 <= k < |idx| ==> idx[k] < |s| && p(s[idx[k]])
    ensures forall k, l :: 0 <= k < l < |idx| ==> idx[k] < idx[l]
    ensures forall i :: 0 <= i < |s| && p(s[i]) ==> i in idx
  {
    KeptFrom(s, p, 0)
  }

  /** An order-preserving selection: `r` lists exactly the elements of `s` at
      the increasing positions where `p` holds. */
  ghost predicate SelectsInOrder<T>(s: seq<T>, p: T -> bool, r: seq<T>) {
    var idx := KeptIndices(s, p);
    |r| == |idx| && forall k :: 0 <= k < |r| ==> r[k] == s[idx[k]]
  }

  lemma {:induction false} FilterFromIsKept<T>(s: seq<T>, p: T -> bool, from: nat)
    requires from <= |s|
    ensures |Filter(s[from..], p)| == |KeptFrom(s, p, from)|
    ensures forall k :: 0 <= k < |KeptFrom(s, p, from)| ==>
              Filter(s[from..], p)[k] == s[KeptFrom(s, p, from)[k]]
    decreases |s| - from
  {
    if from < |s| {
      assert s[from..][0] == s[from];
      assert s[from..][1..] == s[from + 1..];
      FilterFromIsKept(s, p, from + 1);
    }
  }

  /** `s.filter(p)` keeps exactly the elements at the positions where `p`
      holds, in their original order. */
  lemma FilterSelectsInOrder<T>(s: seq<T>, p: T -> bool)
    ensures SelectsInOrder(s, p, Filter(s, p))
  {
    FilterFromIsKept(s, p, 0);
    assert s[0..] == s;
  }

  /** Filtering with a predicate every element satisfies is the identity. */
  lemma {:induction false} FilterKeepsAll<T>(s: seq<T>, p: T -> bool)
    requires forall i :: 0 <= i < |s| ==> p(s[i])
    ensures Filter(s, p) == s
  {
    if s != [] {
      FilterKeepsAll(s[1..], p);
    }
  }

  /** Filtering with two predicates that agree on every element of `s`
      gives the same result. */
  lemma {:induction false} FilterAgreeing<T>(s: seq<T>, p: T -> bool, q: T -> bool)
    requires forall i :: 0 <= i < |s| ==> p(s[i]) == q(s[i])
    ensures Filter(s, p) == Filter(s, q)
  {
    if s != [] {
      FilterAgreeing(s[1..], p, q);
    }
  }

  /** Two successive filters are one filter by the conjunction. */
  lemma {:induction false} FilterTwice<T>(s: seq<T>, p: T -> bool, q: T -> bool, both: T -> bool)
    requires forall i :: 0 <= i < |s| ==> both(s[i]) == (p(s[i]) && q(s[i]))
    ensures Filter(Filter(s, p), q) == Filter(s, both)
  {
    if s != [] {
      FilterTwice(s[1..], p, q, both);
    }
  }

  /** Nothing is dropped exactly when every element satisfies `p`. */
  lemma {:induction false} FilterKeepsAllIff<T>(s: seq<T>, p: T -> bool)
    ensures |Filter(s, p)| == |s| <==> forall i :: 0 <= i < |s| ==> p(s[i])
  {
    if s != [] {
      FilterKeepsAllIff(s[1..], p);
      if !p(s[0]) {
        assert |Filter(s, p)| == |Filter(s[1..], p)| <= |s| - 1;
      } else {
        forall i | 1 <= i < |s| ensures s[i] == s[1..][i - 1] {}
      }
    }
  }

  /** The filter of a concatenation is the concatenation of the filters. */
  lemma {:induction false} FilterConcat<T>(a: seq<T>, b: seq<T>, p: T -> bool)
    ensures Filter(a + b, p) == Filter(a, p) + Filter(b, p)
  {
    if a == [] {
      assert a + b == b;
    } else {
      assert (a + b)[0] == a[0];
      assert (a + b)[1..] == a[1..] + b;
      FilterConcat(a[1..], b, p);
    }
  }

  /** Filtering runs of kept elements separated by runs of dropped ones
      keeps exactly the kept runs. */
  lemma FilterSeparated<T>(x: seq<T>, a: seq<T>, y: seq<T>, b: seq<T>, z: seq<T>, c: seq<T>, p: T -> bool)
    requires forall i :: 0 <= i < |a| ==> p(a[i])
    requires forall i :: 0 <= i < |b| ==> p(b[i])
    requires forall i :: 0 <= i < |c| ==> p(c[i])
    requires forall i :: 0 <= i < |x| ==> !p(x[i])
    requires forall i :: 0 <= i < |y| ==> !p(y[i])
    requires forall i :: 0 <= i < |z| ==> !p(z[i])
    ensures Filter(x + a + y + b + z + c, p) == a + b + c
  {
    assert Filter(x + a, p) == a by {
      FilterEmptyIff(x, p);
      FilterKeepsAll(a, p);
      FilterConcat(x, a, p);
    }
    assert Filter(x + a + y, p) == a by {
      FilterEmptyIff(y, p);
      FilterConcat(x + a, y, p);
    }
    assert Filter(x + a + y + b, p) == a + b by {
      FilterKeepsAll(b, p);
      FilterConcat(x + a + y, b, p);
    }
    assert Filter(x + a + y + b + z, p) == a + b by {
      FilterEmptyIff(z, p);
      FilterConcat(x + a + y + b, z, p);
    }
    FilterKeepsAll(c, p);
    FilterConcat(x + a + y + b + z, c, p);
  }

  /** Nothing is kept exactly when no element satisfies `p`. */
  lemma {:induction false} FilterEmptyIff<T>(s: seq<T>, p: T -> bool)
    ensures Filter(s, p) == [] <==> forall i :: 0 <= i < |s| ==> !p(s[i])
  {
    if s != [] {
      FilterEmptyIff(s[1..], p);
      if !p(s[0]) {
        forall i | 1 <= i < |s| ensures s[i] == s[1..][i - 1] {}
      }
    }
  }

  /** Replacing one element changes the number kept by what the old
      element contributed and what the new one does. */
  lemma FilterUpdateCount<T>(s: seq<T>, i: nat, x: T, p: T -> bool)
    requires i < |s|
    ensures |Filter(s[i := x], p)| ==
            |Filter(s, p)| - (if p(s[i]) then 1 else 0) + (if p(x) then 1 else 0)
  {
    var pre, post := s[..i], s[i + 1..];
    assert s == pre + [s[i]] + post;
    assert s[i := x] == pre + [x] + post;
    FilterConcat(pre + [s[i]], post, p);
    FilterConcat(pre, [s[i]], p);
    FilterConcat(pre + [x], post, p);
    FilterConcat(pre, [x], p);
  }
}
