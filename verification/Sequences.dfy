/** Regrouping sequences, and sums over sequences of numbers. */
module Sequences {
  lemma Associate<T>(a: seq<T>, b: seq<T>, c: seq<T>)
    ensures a + b + c == a + (b + c)
  {}

  ghost function SumSeq(s: seq<nat>): nat {
    if s == [] then 0 else s[0] + SumSeq(s[1..])
  }

  lemma {:induction false} SumSeqConcat(s: seq<nat>, t: seq<nat>)
    ensures SumSeq(s + t) == SumSeq(s) + SumSeq(t)
  {
    if s == [] {
      assert s + t == t;
    } else {
      SumSeqConcat(s[1..], t);
      assert (s + t)[1..] == s[1..] + t;
    }
  }

  lemma SumSeqAppend(s: seq<nat>, x: nat)
    ensures SumSeq(s + [x]) == SumSeq(s) + x
  {
    SumSeqConcat(s, [x]);
    assert [x][1..] == [];
  }
}
