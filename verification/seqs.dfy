/** Order-preserving operations on sequences shared by several components:
    filtering (JavaScript `Array.prototype.filter`), string concatenation
    (`Array.prototype.join("")`) and rotation (a round-robin cursor). */
module Seqs {
  import opened Wrappers

  /** Keeps the elements satisfying `p`, in their original order. */
  function Filter<T>(xs: seq<T>, p: T -> bool): (r: seq<T>)
    ensures |r| <= |xs|
    ensures forall x :: x in r ==> x in xs && p(x)
  {
    if xs == [] then []
    else if p(xs[0]) then [xs[0]] + Filter(xs[1..], p)
    else Filter(xs[1..], p)
  }

  /** `sub` can be obtained from `xs` by deleting elements: the relative
      order of what is kept is the original one. */
  ghost predicate IsSubsequence<T>(sub: seq<T>, xs: seq<T>)
    decreases |xs|
  {
    if sub == [] then true
    else if xs == [] then false
    else if sub[0] == xs[0] then IsSubsequence(sub[1..], xs[1..])
    else IsSubsequence(sub, xs[1..])
  }

  lemma {:induction false} FilterMembership<T>(xs: seq<T>, p: T -> bool, x: T)
    ensures x in Filter(xs, p) <==> x in xs && p(x)
    decreases |xs|
  {
    if xs != [] {
      FilterMembership(xs[1..], p, x);
      assert xs == [xs[0]] + xs[1..];
    }
  }

  /** `FilterMembership` for every element at once. */
  lemma {:induction false} FilterMembershipAll<T>(xs: seq<T>, p: T -> bool)
    ensures forall x :: x in Filter(xs, p) <==> x in xs && p(x)
  {
    forall x {
      FilterMembership(xs, p, x);
    }
  }

  lemma {:induction false} FilterIsSubsequence<T>(xs: seq<T>, p: T -> bool)
    ensures IsSubsequence(Filter(xs, p), xs)
    decreases |xs|
  {
    if xs != [] {
      FilterIsSubsequence(xs[1..], p);
      if !p(xs[0]) {
        SubsequenceOfTail(Filter(xs[1..], p), xs);
      }
    }
  }

  /** Every element of a subsequence occurs in the sequence. */
  lemma {:induction false} SubsequenceMembers<T>(sub: seq<T>, xs: seq<T>)
    requires IsSubsequence(sub, xs)
    ensures forall x :: x in sub ==> x in xs
    decreases |xs|
  {
    if sub != [] {
      if sub[0] == xs[0] {
        SubsequenceMembers(sub[1..], xs[1..]);
        forall x | x in sub
          ensures x in xs
        {
          if x != sub[0] {
            assert x in sub[1..];
            assert x in xs[1..];
          }
        }
      } else {
        SubsequenceMembers(sub, xs[1..]);
        forall x | x in sub
          ensures x in xs
        {
          assert x in xs[1..];
        }
      }
    }
  }

  lemma {:induction false} SubsequenceOfTail<T>(sub: seq<T>, xs: seq<T>)
    requires xs != []
    requires IsSubsequence(sub, xs[1..])
    ensures IsSubsequence(sub, xs)
    decreases |xs|, 0
  {
    if sub != [] && sub[0] == xs[0] {
      // xs[0] is also the head of sub, and sub[1..] is a subsequence of
      // xs[1..] because sub is.
      SubsequenceDropHead(sub, xs[1..]);
    }
  }

  lemma {:induction false} SubsequenceDropHead<T>(sub: seq<T>, xs: seq<T>)
    requires sub != []
    requires IsSubsequence(sub, xs)
    ensures IsSubsequence(sub[1..], xs)
    decreases |xs|, 1
  {
    if xs != [] {
      if sub[0] == xs[0] {
        if sub[1..] != [] {
          SubsequenceOfTail(sub[1..], xs);
        }
      } else {
        SubsequenceDropHead(sub, xs[1..]);
        if sub[1..] != [] {
          SubsequenceOfTail(sub[1..], xs);
        }
      }
    }
  }

  lemma {:induction false} FilterAppend<T>(a: seq<T>, b: seq<T>, p: T -> bool)
    ensures Filter(a + b, p) == Filter(a, p) + Filter(b, p)
    decreases |a|
  {
    if a != [] {
      assert (a + b)[1..] == a[1..] + b;
      FilterAppend(a[1..], b, p);
    } else {
      assert a + b == b;
    }
  }

  /** Concatenation of all pieces in order (`pieces.join("")`). */
  function Concat(pieces: seq<string>): string
  {
    if pieces == [] then "" else pieces[0] + Concat(pieces[1..])
  }

  lemma {:induction false} ConcatAppend(a: seq<string>, b: seq<string>)
    ensures Concat(a + b) == Concat(a) + Concat(b)
    decreases |a|
  {
    if a != [] {
      assert (a + b)[1..] == a[1..] + b;
      ConcatAppend(a[1..], b);
    } else {
      assert a + b == b;
    }
  }

  /** The present values, in order (`if (x) out.push(x)` over a list). */
  function Somes<T>(xs: seq<Option<T>>): seq<T>
    decreases |xs|
  {
    if xs == [] then []
    else
      var n := |xs| - 1;
      Somes(xs[..n]) + (if xs[n].Some? then [xs[n].value] else [])
  }

  lemma {:induction false} SomesMembership<T>(xs: seq<Option<T>>, x: T)
    ensures x in Somes(xs) <==> Some(x) in xs
    decreases |xs|
  {
    if xs != [] {
      var n := |xs| - 1;
      SomesMembership(xs[..n], x);
      assert xs == xs[..n] + [xs[n]];
    }
  }

  /** The rotation of `xs` that starts at position `c`. */
  function Rotate<T>(xs: seq<T>, c: nat): (r: seq<T>)
    requires c < |xs|
    ensures |r| == |xs|
    ensures forall i :: 0 <= i < |xs| ==> r[i] == xs[(c + i) % |xs|]
  {
    var r := xs[c..] + xs[..c];
    forall i | 0 <= i < |xs|
      ensures r[i] == xs[(c + i) % |xs|]
    {
      RotateAt(xs, c, i);
    }
    r
  }

  lemma {:induction false} RotateAt<T>(xs: seq<T>, c: nat, i: nat)
    requires c < |xs| && i < |xs|
    ensures (xs[c..] + xs[..c])[i] == xs[(c + i) % |xs|]
  {
    var n := |xs|;
    var r := xs[c..] + xs[..c];
    if c + i < n {
      ModBelow(c + i, n);
      assert r[i] == xs[c..][i] == xs[c + i];
    } else {
      ModWrap(c + i, n);
      assert r[i] == xs[..c][i - (n - c)] == xs[c + i - n];
    }
  }

  /** A rotation keeps every element and its multiplicity: each element of
      `xs` appears in the rotation exactly as often as in `xs`. */
  lemma {:induction false} RotateIsPermutation<T>(xs: seq<T>, c: nat)
    requires c < |xs|
    ensures multiset(Rotate(xs, c)) == multiset(xs)
  {
    assert xs == xs[..c] + xs[c..];
  }

  // ── Cyclic cursors ───────────────────────────────

  lemma {:induction false} ModBelow(x: int, n: int)
    requires 0 <= x < n
    ensures x % n == x
  {
  }

  lemma {:induction false} ModSelf(n: int)
    requires n > 0
    ensures n % n == 0
  {
  }

  lemma {:induction false} ModWrap(x: int, n: int)
    requires n <= x < 2 * n
    ensures x % n == x - n
  {
  }

  /** The position a cyclic cursor moves to from `c` over `n` places. */
  function NextCursor(c: nat, n: nat): nat
  {
    if c + 1 < n then c + 1 else 0
  }

  /** The cursor position `i` calls after `c`. */
  function Advance(c: nat, i: nat, n: nat): (r: nat)
    requires c < n
    ensures r < n
    decreases i
  {
    if i == 0 then c else Advance(NextCursor(c, n), i - 1, n)
  }

  /** Within one lap, stepping is addition modulo the number of places. */
  lemma {:induction false} AdvanceIsModular(c: nat, i: nat, n: nat)
    requires c < n && i < n
    ensures Advance(c, i, n) == (c + i) % n
    decreases i
  {
    if i == 0 {
      ModBelow(c, n);
    } else {
      AdvanceIsModular(NextCursor(c, n), i - 1, n);
      if c + 1 == n {
        ModBelow(i - 1, n);
        ModWrap(c + i, n);
      }
    }
  }

  /** A cursor stepped `i` times from `c` reads the rotation of `xs` at
      `c`, position `i`. */
  lemma {:induction false} AdvanceReadsRotation<T>(xs: seq<T>, c: nat, i: nat)
    requires c < |xs| && i < |xs|
    ensures xs[Advance(c, i, |xs|)] == Rotate(xs, c)[i]
  {
    AdvanceIsModular(c, i, |xs|);
  }

  /** One step is `(c + 1) % n`. */
  lemma {:induction false} NextCursorIsMod(c: nat, n: nat)
    requires c < n
    ensures NextCursor(c, n) == (c + 1) % n
  {
    if c + 1 == n {
      ModSelf(n);
    } else {
      ModBelow(c + 1, n);
    }
  }
}
