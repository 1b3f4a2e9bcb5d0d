/** Python's `reversed` on lists. */
module Seqs {
  /** The elements of s in the opposite order. */
  function Reverse<T>(s: seq<T>): seq<T>
  {
    seq(|s|, i requires 0 <= i < |s| => s[|s| - 1 - i])
  }

  /** Reversing twice gives the list back. */
  lemma ReverseInvolution<T>(s: seq<T>)
    ensures Reverse(Reverse(s)) == s
  {
    var r := Reverse(Reverse(s));
    assert |r| == |s|;
    forall i | 0 <= i < |s| ensures r[i] == s[i] {
      assert r[i] == Reverse(s)[|s| - 1 - i];
    }
  }

  /** Reversal distributes over concatenation, swapping the parts. */
  lemma ReverseAppend<T>(a: seq<T>, b: seq<T>)
    ensures Reverse(a + b) == Reverse(b) + Reverse(a)
  {
    var l, r := Reverse(a + b), Reverse(b) + Reverse(a);
    assert |l| == |r|;
    forall i | 0 <= i < |l| ensures l[i] == r[i] {
      if i < |b| {
        assert r[i] == Reverse(b)[i];
      } else {
        assert r[i] == Reverse(a)[i - |b|];
      }
    }
  }
}
