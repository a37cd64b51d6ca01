/** Generic facts about sequences: element-wise mapping, and how multisets
    behave when an element is taken out or the sequence is mapped. */
module Seqs {

  /** The element-wise image of `s` under `f`. */
  function Map<A, B>(f: A -> B, s: seq<A>): (r: seq<B>)
    ensures |r| == |s|
    ensures forall i | 0 <= i < |s| :: r[i] == f(s[i])
  {
    seq(|s|, i requires 0 <= i < |s| => f(s[i]))
  }

  /** Two sequences with the same elements still have the same elements once
      one occurrence of the last element of the first is removed from each. */
  lemma MultisetWithoutOne<T>(a: seq<T>, b: seq<T>, j: nat)
    requires multiset(a) == multiset(b) && a != []
    requires j < |b| && b[j] == a[|a| - 1]
    ensures multiset(a[..|a| - 1]) == multiset(b[..j] + b[j + 1..])
  {
    var x, a', before, after := a[|a| - 1], a[..|a| - 1], b[..j], b[j + 1..];
    assert a == a' + [x];
    assert b == before + [x] + after;
    forall y
      ensures multiset(a')[y] == multiset(before + after)[y]
    {
      assert multiset(a)[y] == multiset(a')[y] + multiset{x}[y];
      assert multiset(b)[y] == multiset(before + after)[y] + multiset{x}[y];
    }
  }

  lemma MapOfConcat<A, B>(f: A -> B, a: seq<A>, b: seq<A>)
    ensures Map(f, a + b) == Map(f, a) + Map(f, b)
  {
  }

  /** Mapping a sequence with one more element adds that element's image. */
  lemma MapOfInsert<A, B>(f: A -> B, before: seq<A>, x: A, after: seq<A>)
    ensures multiset(Map(f, before + [x] + after)) == multiset(Map(f, before + after)) + multiset{f(x)}
  {
    MapOfConcat(f, before + [x], after);
    MapOfConcat(f, before, [x]);
    MapOfConcat(f, before, after);
  }

  lemma MapOfMatchingInserts<A, B>(f: A -> B, a: seq<A>, x: A, before: seq<A>, after: seq<A>)
    requires multiset(Map(f, a)) == multiset(Map(f, before + after))
    ensures multiset(Map(f, a + [x])) == multiset(Map(f, before + [x] + after))
  {
    MapOfInsert(f, a, x, []);
    MapOfInsert(f, before, x, after);
    assert a + [x] + [] == a + [x] && a + [] == a;
  }

  /** Reading the records of a reordered table yields the outcomes reordered. */
  lemma {:induction false} MapKeepsPermutation<A, B>(f: A -> B, a: seq<A>, b: seq<A>)
    requires multiset(a) == multiset(b)
    ensures multiset(Map(f, a)) == multiset(Map(f, b))
    decreases |a|
  {
    if a == [] {
      assert |b| == |multiset(b)| == 0;
    } else {
      var x := a[|a| - 1];
      assert x in multiset(b);
      var j :| 0 <= j < |b| && b[j] == x;
      var a', before, after := a[..|a| - 1], b[..j], b[j + 1..];
      MultisetWithoutOne(a, b, j);
      MapKeepsPermutation(f, a', before + after);
      MapOfMatchingInserts(f, a', x, before, after);
      assert a' + [x] == a;
      assert before + [x] + after == b;
    }
  }
}
