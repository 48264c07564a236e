/** Numbers sorted without repetition. */
module SortedIds {
  predicate Increasing(s: seq<nat>) { forall i, j :: 0 <= i < j < |s| ==> s[i] < s[j] }

  function Insert(s: seq<nat>, x: nat): seq<nat> {
    if s == [] || s[|s| - 1] < x then s + [x]
    else if s[|s| - 1] == x then s
    else Insert(s[..|s| - 1], x) + [s[|s| - 1]]
  }

  lemma {:induction false} InsertSorts(s: seq<nat>, x: nat)
    requires Increasing(s)
    ensures Increasing(Insert(s, x)) && forall y :: y in Insert(s, x) <==> y in s || y == x
  {
    if s != [] && s[|s| - 1] > x {
      var front, last := s[..|s| - 1], s[|s| - 1];
      assert s == front + [last] && last in s;
      InsertSorts(front, x);
      var below := Insert(front, x);
      assert forall y :: y in below ==> y < last;
      assert forall i :: 0 <= i < |below| ==> below[i] in below;
    }
  }

  /** sort -n -u */
  function SortUnique(s: seq<nat>): seq<nat> {
    if s == [] then [] else Insert(SortUnique(s[..|s| - 1]), s[|s| - 1])
  }

  lemma {:induction false} SortUniqueSorts(s: seq<nat>)
    ensures Increasing(SortUnique(s)) && forall y :: y in SortUnique(s) <==> y in s
  {
    if s != [] {
      var front, last := s[..|s| - 1], s[|s| - 1];
      assert s == front + [last];
      SortUniqueSorts(front);
      InsertSorts(SortUnique(front), last);
    }
  }
}
