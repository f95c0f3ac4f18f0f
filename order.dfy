/** Orderings on sequences of port numbers, shared by the configuration and the results. */
module Order {

  /** Non-decreasing, the order `list.sort()` leaves a list of integers in. */
  predicate Ascending(s: seq<int>)
  {
    forall i, j :: 0 <= i < j < |s| ==> s[i] <= s[j]
  }

  /** Increasing without repeats. */
  predicate StrictlyAscending(s: seq<int>)
  {
    forall i, j :: 0 <= i < j < |s| ==> s[i] < s[j]
  }

  predicate NoDuplicates(s: seq<int>)
  {
    forall i, j :: 0 <= i < |s| && 0 <= j < |s| && i != j ==> s[i] != s[j]
  }

  lemma StrictImpliesAscendingAndDistinct(s: seq<int>)
    requires StrictlyAscending(s)
    ensures Ascending(s) && NoDuplicates(s)
  {
    forall i, j | 0 <= i < |s| && 0 <= j < |s| && i != j
      ensures s[i] != s[j]
    {
      if i < j { assert s[i] < s[j]; } else { assert s[j] < s[i]; }
    }
  }
}
