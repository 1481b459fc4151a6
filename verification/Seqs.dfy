// Sequences of sequences, joined.

module Seqs {

  function Flatten<T>(ss: seq<seq<T>>): seq<T> {
    if ss == [] then [] else Flatten(ss[..|ss| - 1]) + ss[|ss| - 1]
  }

  lemma FlattenOne<T>(ss: seq<seq<T>>, s: seq<T>)
    ensures Flatten(ss + [s]) == Flatten(ss) + s
  {
    assert (ss + [s])[..|ss|] == ss;
  }

  lemma FlattenSingle<T>(s: seq<T>)
    ensures Flatten([s]) == s
  {
    assert [s][..0] == [];
  }

  lemma FlattenNext<T>(ss: seq<seq<T>>, i: nat)
    requires i < |ss|
    ensures Flatten(ss[..i + 1]) == Flatten(ss[..i]) + ss[i]
  {
    assert ss[..i + 1][..i] == ss[..i];
  }

  lemma {:induction false} FlattenSplit<T>(ss: seq<seq<T>>, i: nat)
    requires i <= |ss|
    ensures Flatten(ss) == Flatten(ss[..i]) + Flatten(ss[i..])
    decreases |ss|
  {
    var last := |ss| - 1;
    if i == |ss| {
      assert ss[..i] == ss;
    } else {
      FlattenSplit(ss[..last], i);
      assert ss[..last][..i] == ss[..i] && ss[..last][i..] == ss[i..][..last - i] && ss[i..][last - i] == ss[last];
    }
  }

  lemma FlattenFirst<T>(ss: seq<seq<T>>)
    requires ss != []
    ensures Flatten(ss) == ss[0] + Flatten(ss[1..])
  {
    FlattenSplit(ss, 1);
    assert ss[..1] == [ss[0]];
    FlattenSingle(ss[0]);
  }
}
