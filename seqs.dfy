/** Sequence notions the grouping is stated with: distinct elements,
    the first index of an element, and first occurrences in order. */
module Seqs {

  predicate Distinct<T(==)>(s: seq<T>) {
    forall i, j :: 0 <= i < j < |s| ==> s[i] != s[j]
  }

  lemma ConcatAssoc<T>(x: seq<T>, y: seq<T>, z: seq<T>)
    ensures (x + y) + z == x + (y + z)
  {
  }

  lemma AppendPair<T>(s: seq<T>, x: T, y: T)
    ensures s + [x, y] == s + [x] + [y] + []
  {
  }

  /** A sequence that differs from `s` only at `j`, where it holds `x`, is
      `s[j := x]`. */
  lemma UpdatedAt<T>(t: seq<T>, s: seq<T>, j: nat, x: T)
    requires |t| == |s| && j < |s| && t[j] == x
    requires forall i :: 0 <= i < |s| && i != j ==> t[i] == s[i]
    ensures t == s[j := x]
  {
  }

  /** The index of the first occurrence of `x` in `s`. */
  function FirstIndex<T(==)>(s: seq<T>, x: T): (i: nat)
    requires x in s
    ensures i < |s| && s[i] == x
    ensures forall k :: 0 <= k < i ==> s[k] != x
  {
    if x in s[..|s| - 1] then FirstIndex(s[..|s| - 1], x) else |s| - 1
  }

  /** The distinct elements of `s`, each at the place it first occurs. */
  function FirstOccurrences<T(==)>(s: seq<T>): seq<T> {
    if s == [] then []
    else
      var p := FirstOccurrences(s[..|s| - 1]);
      if s[|s| - 1] in p then p else p + [s[|s| - 1]]
  }

  /** `FirstOccurrences(s)` holds exactly the elements of `s`. */
  lemma {:induction false} FirstOccurrencesMember<T>(s: seq<T>, x: T)
    ensures x in FirstOccurrences(s) <==> x in s
  {
    if s != [] {
      FirstOccurrencesMember(s[..|s| - 1], x);
      assert s == s[..|s| - 1] + [s[|s| - 1]];
    }
  }

  /** `FirstOccurrences(s)` lists every element of `s` exactly once, and in
      the order of their first occurrences in `s`. */
  lemma FirstOccurrencesDistinct<T>(s: seq<T>, i: nat, j: nat)
    requires i < |FirstOccurrences(s)| && j < |FirstOccurrences(s)| && i != j
    ensures FirstOccurrences(s)[i] != FirstOccurrences(s)[j]
  {
    FirstOccurrencesFacts(s);
  }

  lemma {:induction false} FirstOccurrencesFacts<T>(s: seq<T>)
    ensures Distinct(FirstOccurrences(s))
    ensures forall x :: x in FirstOccurrences(s) <==> x in s
    ensures forall i, j :: 0 <= i < j < |FirstOccurrences(s)| ==>
              FirstIndex(s, FirstOccurrences(s)[i]) < FirstIndex(s, FirstOccurrences(s)[j])
  {
    forall x
      ensures x in FirstOccurrences(s) <==> x in s
    {
      FirstOccurrencesMember(s, x);
    }
    if s != [] {
      var q := s[..|s| - 1];
      var x := s[|s| - 1];
      FirstOccurrencesFacts(q);
      var p := FirstOccurrences(q);
      assert s == q + [x];
      forall i | 0 <= i < |p|
        ensures p[i] in q && FirstIndex(s, p[i]) == FirstIndex(q, p[i])
      {
        FirstOccurrencesMember(q, p[i]);
      }
      if x !in p {
        FirstOccurrencesMember(q, x);
        assert FirstIndex(s, x) == |s| - 1;
      }
    }
  }

  /** The sum of `size` over the elements of `s`. */
  function Total<T>(s: seq<T>, size: T -> nat): nat {
    if s == [] then 0 else Total(s[..|s| - 1], size) + size(s[|s| - 1])
  }

  lemma TotalSnoc<T>(s: seq<T>, x: T, size: T -> nat)
    ensures Total(s + [x], size) == Total(s, size) + size(x)
  {
    assert (s + [x])[..|s|] == s;
  }

  /** Replacing one element changes the total by the difference. */
  lemma {:induction false} TotalUpdate<T>(s: seq<T>, j: nat, x: T, size: T -> nat)
    requires j < |s|
    ensures Total(s[j := x], size) == Total(s, size) - size(s[j]) + size(x)
  {
    var q := s[..|s| - 1];
    if j == |s| - 1 {
      assert s[j := x] == q + [x];
      TotalSnoc(q, x, size);
    } else {
      TotalUpdate(q, j, x, size);
      assert s[j := x] == q[j := x] + [s[|s| - 1]];
      TotalSnoc(q[j := x], s[|s| - 1], size);
    }
    assert s == q + [s[|s| - 1]];
    TotalSnoc(q, s[|s| - 1], size);
  }

  /** `s` cut, from the front, into consecutive pieces of `size` elements;
      the last piece holds what is left. */
  function Chunks<T>(s: seq<T>, size: nat): seq<seq<T>>
    requires size > 0
    decreases |s|
  {
    if s == [] then []
    else
      var k := if |s| < size then |s| else size;
      [s[..k]] + Chunks(s[k..], size)
  }

  /** The pieces put back together. */
  function Flatten<T>(pieces: seq<seq<T>>): seq<T> {
    if pieces == [] then [] else pieces[0] + Flatten(pieces[1..])
  }

  /** Chunking loses nothing and invents nothing: the pieces concatenate
      back to `s`. */
  lemma {:induction false} FlattenChunks<T>(s: seq<T>, size: nat)
    requires size > 0
    ensures Flatten(Chunks(s, size)) == s
    decreases |s|
  {
    if s != [] {
      var k := if |s| < size then |s| else size;
      FlattenChunks(s[k..], size);
      assert Chunks(s, size)[1..] == Chunks(s[k..], size);
      assert s == s[..k] + s[k..];
    }
  }

  /** Each piece holds between 1 and `size` elements, and every piece but
      the last exactly `size`. */
  lemma {:induction false} ChunkSizes<T>(s: seq<T>, size: nat)
    requires size > 0
    ensures forall i :: 0 <= i < |Chunks(s, size)| ==> 0 < |Chunks(s, size)[i]| <= size
    ensures forall i :: 0 <= i < |Chunks(s, size)| - 1 ==> |Chunks(s, size)[i]| == size
    decreases |s|
  {
    if s != [] {
      var k := if |s| < size then |s| else size;
      ChunkSizes(s[k..], size);
      var cs := Chunks(s, size);
      assert cs[1..] == Chunks(s[k..], size);
      if |s| <= size {
        assert Chunks(s[k..], size) == [];
      }
      forall i | 0 < i < |cs|
        ensures cs[i] == Chunks(s[k..], size)[i - 1]
      {
      }
    }
  }

  /** There are `ceil(|s| / size)` pieces: none for an empty `s`, and
      otherwise the fewest pieces of `size` elements that hold `s`. */
  lemma {:induction false} ChunkCount<T>(s: seq<T>, size: nat)
    requires size > 0
    ensures |Chunks(s, size)| == 0 <==> s == []
    ensures s != [] ==> (|Chunks(s, size)| - 1) * size < |s| <= |Chunks(s, size)| * size
    decreases |s|
  {
    if s != [] {
      var k := if |s| < size then |s| else size;
      ChunkCount(s[k..], size);
      var n := |Chunks(s[k..], size)|;
      assert |Chunks(s, size)| == n + 1;
      if |s| <= size {
        assert n == 0;
      } else {
        assert |s[k..]| == |s| - size > 0;
        assert (n - 1) * size < |s| - size <= n * size;
        assert (n - 1) * size == n * size - size;
        assert (n + 1) * size == n * size + size;
      }
    }
  }

  /** The loop form of chunking: cutting the next piece off the remainder
      starting at `i`. */
  lemma ChunksFrom<T>(s: seq<T>, i: nat, size: nat)
    requires size > 0 && i < |s|
    ensures var j := if i + size < |s| then i + size else |s|;
      Chunks(s[i..], size) == [s[i..j]] + Chunks(s[j..], size)
  {
    var j := if i + size < |s| then i + size else |s|;
    assert s[i..][..j - i] == s[i..j];
    assert s[i..][j - i..] == s[j..];
  }
}
