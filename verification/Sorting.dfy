/** The stable sort: each element goes before the first that has to come after it. */
module Sorting {

  function Insert<T>(x: T, sorted: seq<T>, after: (T, T) -> bool): (longer: seq<T>)
    ensures |longer| == |sorted| + 1
  {
    if sorted == [] then [x]
    else if after(sorted[0], x) then [x] + sorted
    else [sorted[0]] + Insert(x, sorted[1..], after)
  }

  function Sort<T>(xs: seq<T>, after: (T, T) -> bool): (sorted: seq<T>)
    ensures |sorted| == |xs|
  {
    if xs == [] then [] else Insert(xs[|xs| - 1], Sort(xs[..|xs| - 1], after), after)
  }

  lemma {:induction false} InsertMembers<T>(x: T, sorted: seq<T>, after: (T, T) -> bool)
    ensures forall y :: y in Insert(x, sorted, after) <==> y in sorted || y == x
    decreases |sorted|
  {
    if sorted != [] {
      InsertMembers(x, sorted[1..], after);
      assert sorted == [sorted[0]] + sorted[1..];
    }
  }

  lemma {:induction false} SortMembers<T>(xs: seq<T>, after: (T, T) -> bool)
    ensures forall y :: y in Sort(xs, after) <==> y in xs
    decreases |xs|
  {
    hide Insert;
    if xs != [] {
      var earlier, last := xs[..|xs| - 1], xs[|xs| - 1];
      SortMembers(earlier, after);
      InsertMembers(last, Sort(earlier, after), after);
      assert xs == earlier + [last];
    }
  }
}
