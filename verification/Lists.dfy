/** Linked lists as sequences: membership and removal of one element. */
module Lists {

  predicate Distinct<T(==)>(s: seq<T>) {
    forall i, j :: 0 <= i < j < |s| ==> s[i] != s[j]
  }

  /** The list without one of its elements. */
  function Without<T(==,!new)>(s: seq<T>, x: T): (r: seq<T>)
    ensures forall y :: y in r <==> y in s && y != x
    ensures Distinct(s) ==> Distinct(r)
    ensures x in s ==> |r| < |s|
    ensures x !in s ==> r == s
  {
    if s == [] then []
    else
      assert Distinct(s) ==> Distinct(s[1..]) && s[0] !in s[1..];
      if s[0] == x then Without(s[1..], x) else [s[0]] + Without(s[1..], x)
  }

  lemma DistinctSnoc<T>(s: seq<T>, x: T)
    requires Distinct(s) && x !in s
    ensures Distinct(s + [x])
  {
  }

  /** Every entry of a log was proper when it was written. */
  ghost predicate Disciplined<E(!new)>(proper: (seq<E>, E) -> bool, log: seq<E>) {
    forall k :: 0 <= k < |log| ==> proper(log[..k], log[k])
  }

  lemma DisciplinedSnoc<E(!new)>(proper: (seq<E>, E) -> bool, log: seq<E>, e: E)
    requires Disciplined(proper, log) && proper(log, e)
    ensures Disciplined(proper, log + [e])
  {
    var more := log + [e];
    forall k | 0 <= k < |more| ensures proper(more[..k], more[k]) {
      if k < |log| {
        assert more[..k] == log[..k] && proper(log[..k], log[k]);
      } else {
        assert more[..k] == log;
      }
    }
  }

  lemma ProperAt<E(!new)>(proper: (seq<E>, E) -> bool, log: seq<E>, k: nat)
    requires Disciplined(proper, log) && k < |log|
    ensures proper(log[..k], log[k])
  {
  }
}
