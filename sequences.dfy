/** Order-preserving selection from a sequence: what pandas' group-by and a
    stable sort on a two-valued key do to the rows they are given. */
module Sequences {

  /** The elements of `s` that satisfy `p`, in the order they have in `s`. */
  function Keep<T>(s: seq<T>, p: T -> bool): (r: seq<T>)
    ensures |r| <= |s|
    ensures forall k :: 0 <= k < |r| ==> p(r[k])
    ensures r == [] <==> forall k :: 0 <= k < |s| ==> !p(s[k])
  {
    if s == [] then []
    else if p(s[0]) then [s[0]] + Keep(s[1..], p)
    else Keep(s[1..], p)
  }

  /** `idx` lists, in increasing order, the positions of `s` that `r` was taken
      from, and those are exactly the positions whose element satisfies `p`. */
  ghost predicate SelectsAt<T>(r: seq<T>, s: seq<T>, p: T -> bool, idx: seq<nat>)
  {
    && |idx| == |r|
    && (forall k :: 0 <= k < |idx| ==> idx[k] < |s| && r[k] == s[idx[k]])
    && (forall k, l :: 0 <= k < l < |idx| ==> idx[k] < idx[l])
    && (forall j :: 0 <= j < |s| && p(s[j]) ==> j in idx)
    && (forall k :: 0 <= k < |r| ==> p(r[k]))
  }

  /** `r` is the subsequence of `s` made of every element satisfying `p`. */
  ghost predicate IsOrderedSelection<T>(r: seq<T>, s: seq<T>, p: T -> bool)
  {
    exists idx :: SelectsAt(r, s, p, idx)
  }

  /** Keep takes every element that satisfies the predicate, and only those,
      without reordering them; the positions it takes are returned. */
  lemma {:induction false} KeepSelectsInOrder<T>(s: seq<T>, p: T -> bool) returns (idx: seq<nat>)
    ensures SelectsAt(Keep(s, p), s, p, idx)
    ensures IsOrderedSelection(Keep(s, p), s, p)
  {
    if s == [] {
      idx := [];
    } else {
      var rest := KeepSelectsInOrder(s[1..], p);
      var shifted := Shift(s, p, rest);
      if p(s[0]) {
        idx := TakeHead(s, p, shifted);
      } else {
        idx := shifted;
        assert Keep(s, p) == Keep(s[1..], p);
      }
    }
    assert SelectsAt(Keep(s, p), s, p, idx);
  }

  /** The selection step when the first element qualifies. */
  lemma TakeHead<T>(s: seq<T>, p: T -> bool, shifted: seq<nat>) returns (idx: seq<nat>)
    requires s != [] && p(s[0])
    requires |shifted| == |Keep(s[1..], p)|
    requires forall k :: 0 <= k < |shifted| ==> 0 < shifted[k] < |s| && Keep(s[1..], p)[k] == s[shifted[k]]
    requires forall k, l :: 0 <= k < l < |shifted| ==> shifted[k] < shifted[l]
    requires forall j :: 0 < j < |s| && p(s[j]) ==> j in shifted
    ensures SelectsAt(Keep(s, p), s, p, idx)
  {
    idx := [0] + shifted;
    var r, tail := Keep(s, p), Keep(s[1..], p);
    assert r == [s[0]] + tail;
    forall k | 0 < k < |idx|
      ensures idx[k] < |s| && r[k] == s[idx[k]]
    {
      assert idx[k] == shifted[k - 1];
      assert r[k] == tail[k - 1];
    }
    forall k, l | 0 <= k < l < |idx|
      ensures idx[k] < idx[l]
    {
      assert idx[l] == shifted[l - 1];
      if k > 0 {
        assert idx[k] == shifted[k - 1];
      }
    }
    forall j | 0 <= j < |s| && p(s[j])
      ensures j in idx
    {
      if j > 0 {
        assert j in shifted;
      }
    }
  }

  /** Positions in `s[1..]` moved to the positions they have in `s`. */
  lemma Shift<T>(s: seq<T>, p: T -> bool, rest: seq<nat>) returns (shifted: seq<nat>)
    requires s != []
    requires SelectsAt(Keep(s[1..], p), s[1..], p, rest)
    ensures |shifted| == |rest|
    ensures forall k :: 0 <= k < |shifted| ==> shifted[k] == rest[k] + 1
    ensures forall k :: 0 <= k < |shifted| ==> 0 < shifted[k] < |s| && Keep(s[1..], p)[k] == s[shifted[k]]
    ensures forall k, l :: 0 <= k < l < |shifted| ==> shifted[k] < shifted[l]
    ensures forall j :: 0 < j < |s| && p(s[j]) ==> j in shifted
  {
    shifted := seq(|rest|, k requires 0 <= k < |rest| => rest[k] + 1);
    forall j | 0 < j < |s| && p(s[j])
      ensures j in shifted
    {
      assert s[1..][j - 1] == s[j];
      var k :| 0 <= k < |rest| && rest[k] == j - 1;
      assert shifted[k] == j;
    }
  }

  /** Whatever holds of every element still holds of every kept element. */
  lemma {:induction false} KeepPreserves<T>(s: seq<T>, p: T -> bool, q: T -> bool)
    requires forall k :: 0 <= k < |s| ==> q(s[k])
    ensures forall k :: 0 <= k < |Keep(s, p)| ==> q(Keep(s, p)[k])
  {
    if s != [] {
      KeepPreserves(s[1..], p, q);
    }
  }

  /** Keeping from a concatenation keeps from each part. */
  lemma {:induction false} KeepAppend<T>(a: seq<T>, b: seq<T>, p: T -> bool)
    ensures Keep(a + b, p) == Keep(a, p) + Keep(b, p)
  {
    if a == [] {
      assert a + b == b;
    } else {
      assert (a + b)[0] == a[0];
      assert (a + b)[1..] == a[1..] + b;
      KeepAppend(a[1..], b, p);
    }
  }

  /** Keep changes nothing when every element qualifies. */
  lemma {:induction false} KeepAll<T>(s: seq<T>, p: T -> bool)
    requires forall k :: 0 <= k < |s| ==> p(s[k])
    ensures Keep(s, p) == s
  {
    if s != [] {
      KeepAll(s[1..], p);
    }
  }

  /** Keep takes nothing when no element qualifies. */
  lemma {:induction false} KeepNone<T>(s: seq<T>, p: T -> bool)
    requires forall k :: 0 <= k < |s| ==> !p(s[k])
    ensures Keep(s, p) == []
  {
    if s != [] {
      KeepNone(s[1..], p);
    }
  }

  /** Splitting by a predicate and by its negation loses and adds nothing. */
  lemma {:induction false} KeepSplitsMultiset<T>(s: seq<T>, p: T -> bool, q: T -> bool)
    requires forall x :: q(x) == !p(x)
    ensures multiset(Keep(s, p)) + multiset(Keep(s, q)) == multiset(s)
  {
    if s != [] {
      var rest := s[1..];
      KeepSplitsMultiset(rest, p, q);
      assert s == [s[0]] + rest;
      assert multiset(s) == multiset{s[0]} + multiset(rest);
      if p(s[0]) {
        assert Keep(s, p) == [s[0]] + Keep(rest, p);
        assert Keep(s, q) == Keep(rest, q);
        assert multiset(Keep(s, p)) == multiset{s[0]} + multiset(Keep(rest, p));
      } else {
        assert Keep(s, p) == Keep(rest, p);
        assert Keep(s, q) == [s[0]] + Keep(rest, q);
        assert multiset(Keep(s, q)) == multiset{s[0]} + multiset(Keep(rest, q));
      }
    }
  }
}
