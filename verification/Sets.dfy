/**
 Facts about finite sets that several loops and counters need: a set that is not empty
 has a member, and two sets that agree outside of one element differ in size by what that
 element contributes to each of them. Counters of requests and of threads rely on it.
 */
module Sets {

  lemma EmptyOrInhabited(s: set<int>)
    ensures s == {} || exists x :: x in s
  {
    if forall x :: x !in s { assert s == {}; }
  }

  function One(b: bool): int { if b then 1 else 0 }

  lemma WithoutMember(s: set<int>, x: int)
    ensures |s - {x}| == |s| - One(x in s)
  {
    if x in s { assert s == (s - {x}) + {x}; } else { assert s - {x} == s; }
  }

  /** Two sets that differ in one element at most. */
  lemma DifferInOne(before: set<int>, after: set<int>, x: int)
    requires before - {x} == after - {x}
    ensures |after| == |before| - One(x in before) + One(x in after)
  {
    WithoutMember(before, x);
    WithoutMember(after, x);
  }

  /** The keys whose values are of some kind. */
  function Those<V>(entries: map<int, V>, which: V -> bool): set<int>
  {
    set k | k in entries && which(entries[k])
  }

  /** Changing one entry changes a count by that entry alone. */
  lemma ThoseUpdate<V>(entries: map<int, V>, k: int, v: V, which: V -> bool)
    ensures |Those(entries[k := v], which)|
      == |Those(entries, which)| - One(k in entries && which(entries[k])) + One(which(v))
  {
    var before, after := Those(entries, which), Those(entries[k := v], which);
    assert before - {k} == after - {k};
    DifferInOne(before, after, k);
  }
}
